/** The wire-level vocabulary shared by the pipeline: raw message bytes,
    decoded request payloads and the record handed to the provider chain. */
module Envelope {

  newtype Byte = b: int | 0 <= b < 256

  /** The raw content of a broker message. */
  type Bytes = seq<Byte>

  datatype Option<+T> = None | Some(value: T)

  /** A decoded JSON value, as far as the pipeline looks into it. Arrays and
      objects are kept as their JSON text: the pipeline never looks inside. */
  datatype Value =
    | Null
    | Bool(b: bool)
    | Number(n: int)
    | Str(s: string)
    | Composite(json: string)

  /** JavaScript truthiness of a JSON value: null, false, 0 and "" are falsy. */
  predicate Truthy(v: Value)
  {
    match v
    case Null => false
    case Bool(b) => b
    case Number(n) => n != 0
    case Str(s) => s != ""
    case Composite(_) => true
  }

  /** A decoded delivery request: `request_id`, the optional `retry_count`
      and every other field of the JSON object (to_email, subject, ...). */
  datatype Payload = Payload(requestId: string, retryCount: Option<nat>, fields: map<string, Value>)

  /** What JSON.parse gives for a message's content: the JSON `null`, or a
      document read as a request payload. */
  datatype Parsed = NullDocument | Document(payload: Payload)

  /** A payload as JSON.parse and the destructuring give it: a JSON object
      has each key once, so `request_id` and `retry_count` are not among the
      other fields. */
  predicate WellFormed(p: Payload)
  {
    "request_id" !in p.fields && "retry_count" !in p.fields
  }

  /** `retry_count` with its default of 0 when the field is absent. */
  function RetryCount(p: Payload): nat
  {
    match p.retryCount
    case None => 0
    case Some(k) => k
  }

  /** The record `{...emailData, request_id}` handed to the sender: the
      payload without its `retry_count`. */
  datatype Message = Message(requestId: string, fields: map<string, Value>)

  function ForSending(p: Payload): (m: Message)
    ensures WellFormed(p) ==> "retry_count" !in m.fields && "request_id" !in m.fields
  {
    Message(p.requestId, p.fields)
  }

  /** `{...payload, retry_count: n}`: the payload with only its retry counter replaced. */
  function WithRetryCount(p: Payload, n: nat): Payload
  {
    p.(retryCount := Some(n))
  }

  /** Field lookup on a record; an absent field reads as `undefined`. */
  function Field(fields: map<string, Value>, name: string): Option<Value>
  {
    if name in fields then Some(fields[name]) else None
  }
}
