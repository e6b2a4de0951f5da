/** The designer app's hold on the document: the initial load and the `save`
    capability every editing form calls. The network reply and whether the
    best-effort reload of the split-screen preview throws are parameters. */
module Client {
  import opened Document

  /** The document object the app holds; `save` records that the app's save
      function is attached to it (JSON carries no functions, so a parsed reply
      never has it by itself). */
  datatype Held = Held(doc: Doc, save: bool)

  /** The app's state: `loaded` switches from "Loading..." to the editor. */
  datatype App = App(loaded: bool, data: Option<Held>)

  const Initial: App := App(false, None)

  /** How a request ends: the network fails, or a response arrives whose body
      parses as a document (`Some`) or not (`None`, which also covers JSON
      that is not a document). */
  datatype Response = NetworkError | Response(ok: bool, json: Option<Doc>)

  /** The app is usable: once loaded it holds a document with `save` attached. */
  predicate Ready(app: App)
  {
    app.loaded ==> app.data.Some? && app.data.value.save
  }

  /** The initial fetch: any response whose body parses as a document (its status is not
      looked at) becomes the held document, with `save` attached; otherwise the
      rejection goes unhandled and the app keeps showing "Loading...". */
  function Load(app: App, res: Response): (r: App)
    ensures Ready(app) ==> Ready(r)
    ensures res.Response? && res.json.Some? ==> r.loaded && r.data == Some(Held(res.json.value, true))
    ensures !(res.Response? && res.json.Some?) ==> r == app
  {
    match res
    case Response(_, Some(d)) => App(true, Some(Held(d, true)))
    case _ => app
  }

  /** What one call of `save` leaves behind: the app's state, the value the
      returned promise resolves to (`None` for `undefined`), the body sent, and
      whether the "Save failed" alert was shown. */
  datatype Saved = Saved(app: App, returned: Option<Held>, sent: Doc, alerted: bool)

  /** The server accepted the save and its reply parsed. */
  predicate Accepted(res: Response)
  {
    res.Response? && res.ok && res.json.Some?
  }

  /** `save(updatedData)`: the candidate is sent; only an OK reply whose body
      parses replaces the held document, and then by the server's value, with
      `save` attached again. A network error, a non-OK reply or an unparsable
      body leaves the app untouched, alerts, and resolves to `undefined`. An
      exception from the preview reload comes after the replacement and is
      reported by the same alert. */
  function Save(app: App, candidate: Doc, res: Response, previewThrows: bool): (r: Saved)
    ensures r.sent == candidate
    ensures Ready(app) ==> Ready(r.app)
    ensures !Accepted(res) ==> r.app == app && r.alerted && r.returned.None?
    ensures Accepted(res) ==>
      && r.app.loaded == app.loaded
      && r.app.data == Some(Held(res.json.value, true))
      && (r.alerted <==> previewThrows)
      && (r.returned.Some? <==> !previewThrows)
      && (r.returned.Some? ==> r.returned == r.app.data)
  {
    match res
    case Response(true, Some(d)) =>
      var held := Held(d, true);
      var app' := app.(data := Some(held));
      if previewThrows then Saved(app', None, candidate, true)
      else Saved(app', Some(held), candidate, false)
    case _ => Saved(app, None, candidate, true)
  }

  /** The held document after a save never depends on what was sent: the server's reply is what wins. */
  lemma ReplyDecides(app: App, c1: Doc, c2: Doc, res: Response, previewThrows: bool)
    ensures Save(app, c1, res, previewThrows).app == Save(app, c2, res, previewThrows).app
    ensures Save(app, c1, res, previewThrows).returned == Save(app, c2, res, previewThrows).returned
  {
  }

  /** A loaded app stays ready through any sequence of saves, whatever their replies. */
  lemma {:induction false} ReadyThroughSaves(app: App, candidates: seq<Doc>, replies: seq<Response>, throws: seq<bool>)
    requires Ready(app)
    requires |candidates| == |replies| == |throws|
    ensures Ready(SaveAll(app, candidates, replies, throws))
  {
    if |candidates| > 0 {
      var n := |candidates| - 1;
      ReadyThroughSaves(app, candidates[..n], replies[..n], throws[..n]);
    }
  }

  /** The app after a series of saves, one reply each. */
  function SaveAll(app: App, candidates: seq<Doc>, replies: seq<Response>, throws: seq<bool>): App
    requires |candidates| == |replies| == |throws|
  {
    if |candidates| == 0 then app
    else
      var n := |candidates| - 1;
      Save(SaveAll(app, candidates[..n], replies[..n], throws[..n]), candidates[n], replies[n], throws[n]).app
  }

  /** The list editor's delete after confirmation: `save` the copy, then call
      the edit callback with whatever `save` resolved to. Since `save` handles
      its own failures, the callback runs on failure too, with `undefined`, and
      a failed save never reaches the delete handler's own `catch`. Answers the app's state and
      the callback's argument. */
  function DeleteThenEdit(app: App, copy: Doc, res: Response, previewThrows: bool): (r: (App, Option<Held>))
    ensures r.1.Some? <==> Accepted(res) && !previewThrows
    ensures r.1.Some? ==> r.0.data == r.1 && r.1.value.doc == res.json.value
    ensures Accepted(res) ==> r.0.data == Some(Held(res.json.value, true))
    ensures !Accepted(res) ==> r.0 == app
  {
    var s := Save(app, copy, res, previewThrows);
    (s.app, s.returned)
  }
}
