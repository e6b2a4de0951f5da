/** The save/load protocol end to end: the app's `save` and initial load
    talking to the data service, with the reply delivered intact. */
module Protocol {
  import opened Document
  import Server
  import Client

  /** The reply as `fetch` presents it: `ok` for a 2xx code, and a body that
      parses as a document exactly when the service sent one. */
  function Deliver(r: Server.Reply): Client.Response
  {
    Client.Response(200 <= r.code < 300, Server.Content(r.body))
  }

  /** The app shows the document the service serves, with `save` attached. */
  predicate Synced(app: Client.App, s: Server.Store)
  {
    app.loaded && app.data == Some(Client.Held(s.data, true))
  }

  /** The initial load leaves the app holding what `GET /api/data` serves. */
  lemma LoadSyncs(s: Server.Store)
    ensures Synced(Client.Load(Client.Initial, Deliver(Server.Get(s, false))), s)
  {
  }

  /** One exchange of a session: the candidate sent, the validator's verdict, the write's outcome, and the preview reload's. */
  datatype Exchange = Exchange(candidate: Doc, validate: Doc -> Server.Validation, writeOk: bool, previewThrows: bool)

  /** One save through the service: the service handles the `PUT`, and the
      app's `save` receives the reply. Answers what `save` leaves behind and
      the service's store. */
  function Run(app: Client.App, s: Server.Store, x: Exchange): (Client.Saved, Server.Store)
  {
    var step := Server.Put(s, x.candidate, x.validate, x.writeOk);
    (Client.Save(app, x.candidate, Deliver(step.reply), x.previewThrows), step.store)
  }

  /** One save through the service: afterwards the app still shows what the
      service serves. On acceptance that is the validated value, not the
      candidate; on rejection (invalid payload or failed write) neither side
      changes and the user is alerted. */
  lemma SaveRoundTrip(app: Client.App, s: Server.Store, x: Exchange)
    requires Synced(app, s)
    ensures Synced(Run(app, s, x).0.app, Run(app, s, x).1)
    ensures x.validate(x.candidate).Valid? && x.writeOk ==>
      Run(app, s, x).0.app.data == Some(Client.Held(x.validate(x.candidate).value, true))
    ensures !(x.validate(x.candidate).Valid? && x.writeOk) ==>
      Run(app, s, x).1 == s && Run(app, s, x).0.app == app && Run(app, s, x).0.alerted
  {
  }

  /** The reply must arrive for the two sides to agree: when the service
      accepts and stores a new value but the client sees a network error
      instead of the reply, the app keeps the old document and the two drift
      apart. */
  lemma LostReplyDrifts(app: Client.App, s: Server.Store, candidate: Doc, v: Doc)
    requires Synced(app, s)
    requires v != s.data
    ensures Server.Put(s, candidate, _ => Server.Valid(v), true).store.data == v
    ensures !Synced(Client.Save(app, candidate, Client.NetworkError, false).app,
                    Server.Put(s, candidate, _ => Server.Valid(v), true).store)
  {
  }

  /** App and service after a series of saves, each finished, with its reply delivered, before the next starts. */
  function Session(app: Client.App, s: Server.Store, xs: seq<Exchange>): (Client.App, Server.Store)
  {
    if |xs| == 0 then (app, s)
    else
      var n := |xs| - 1;
      var (a, t) := Session(app, s, xs[..n]);
      var (saved, t') := Run(a, t, xs[n]);
      (saved.app, t')
  }

  /** However many saves succeed or fail, the app and the service never drift
      apart, provided each save's reply arrives intact, and before the next save is sent
      (`Session` runs the exchanges one after another; overlapping saves are
      not modelled). */
  lemma {:induction false} SessionStaysSynced(app: Client.App, s: Server.Store, xs: seq<Exchange>)
    requires Synced(app, s)
    ensures Synced(Session(app, s, xs).0, Session(app, s, xs).1)
  {
    if |xs| > 0 {
      var n := |xs| - 1;
      SessionStaysSynced(app, s, xs[..n]);
      var (a, t) := Session(app, s, xs[..n]);
      var x := xs[n];
      SaveRoundTrip(a, t, x);
    }
  }
}
