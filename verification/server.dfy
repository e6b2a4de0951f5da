/** The designer's data service: one document held in memory, served by
    `GET /api/data` and replaced by `PUT /api/data` once the payload has passed
    schema validation and has been written to the backing file. The schema
    validator and the outcome of the file write are parameters. */
module Server {
  import opened Document

  /** What the schema validator reports: the validated (possibly normalised) value, or an error. */
  datatype Validation = Valid(value: Doc) | Invalid

  /** A response body: the document as a JSON object, the document as an
      indented JSON string, or the failure object `{ ok, err }`. */
  datatype Body = Data(doc: Doc) | Pretty(doc: Doc) | Failure(ok: bool, err: string)

  datatype Reply = Reply(code: nat, body: Body)

  /** The document the service currently serves. */
  datatype Store = Store(data: Doc)

  /** The one message every failed write reports. */
  const WriteFailed: string := "Write file failed"

  /** The reply to every failed `PUT`: code 401, `{ ok: false, err: 'Write file failed' }`. */
  const Rejection: Reply := Reply(401, Failure(false, WriteFailed))

  /** The document a body carries, if it carries one. */
  function Content(b: Body): Option<Doc>
  {
    match b
    case Data(d) => Some(d)
    case Pretty(d) => Some(d)
    case Failure(_, _) => None
  }

  /** `GET /api/data`: the current document, indented when `format` is set. */
  function Get(s: Store, format: bool): (r: Reply)
    ensures r.code == 200
    ensures Content(r.body) == Some(s.data)
    ensures r.body.Pretty? <==> format
  {
    if format then Reply(200, Pretty(s.data)) else Reply(200, Data(s.data))
  }

  /** The service after a `PUT`, its reply, and the value it tried to write to the file, if any. */
  datatype PutStep = PutStep(store: Store, reply: Reply, written: Option<Doc>)

  /** `PUT /api/data`: validate the payload; only if it is valid write the
      validated value, and only if the write succeeds make it the served
      document and return it. Every failure leaves the store as it was and
      gives the same rejection. */
  function Put(s: Store, payload: Doc, validate: Doc -> Validation, writeOk: bool): (r: PutStep)
    ensures validate(payload).Invalid? ==> r.written.None?
    ensures validate(payload).Valid? ==> r.written == Some(validate(payload).value)
    ensures r.reply.code == 200 <==> validate(payload).Valid? && writeOk
    ensures r.reply.code != 200 ==> r.store == s && r.reply == Rejection
    ensures r.reply.code == 200 ==> r.store.data == validate(payload).value && r.reply.body == Data(r.store.data)
  {
    match validate(payload)
    case Invalid => PutStep(s, Rejection, None)
    case Valid(value) =>
      if !writeOk then PutStep(s, Rejection, Some(value))
      else PutStep(Store(value), Reply(200, Data(value)), Some(value))
  }

  /** Both renderings of `GET` carry the same document: `format` changes only the serialisation. */
  lemma FormatKeepsContent(s: Store)
    ensures Content(Get(s, true).body) == Content(Get(s, false).body)
  {
  }

  /** After a successful `PUT`, `GET` serves exactly the value the `PUT` stored and returned. */
  lemma GetAfterPut(s: Store, payload: Doc, validate: Doc -> Validation, writeOk: bool, format: bool)
    requires Put(s, payload, validate, writeOk).reply.code == 200
    ensures Content(Get(Put(s, payload, validate, writeOk).store, format).body) == Some(validate(payload).value)
    ensures Content(Get(Put(s, payload, validate, writeOk).store, format).body) == Content(Put(s, payload, validate, writeOk).reply.body)
  {
  }

  /** A rejected `PUT` is invisible to later readers: `GET` serves what it served before. */
  lemma GetAfterRejectedPut(s: Store, payload: Doc, validate: Doc -> Validation, writeOk: bool, format: bool)
    requires Put(s, payload, validate, writeOk).reply.code != 200
    ensures Get(Put(s, payload, validate, writeOk).store, format) == Get(s, format)
  {
  }
}
