/** Values that travel between the client, the proxy and the upstream API servers.

Strings are symbolic: a string is either literal text or the encoding of a structured value.
The two proxy encodings (prefix plus unpadded base64url of JSON, section 5 of RFC 4648) are thereby
injective and decodable by construction; everything the proxy decides about a string is decided by
what the string encodes. */
module Wire {

  datatype Option<+T> = None | Some(value: T)

  datatype Text =
    | Lit(s: string)                                 // ordinary text
    | Vector(versions: map<string, Text>)            // an aggregate resource version
    | Token(cursor: PageCursor)                      // an aggregate continuation token
    | Pinned(version: Text, offset: nat)             // an upstream's own continuation token

  datatype PageCursor = PageCursor(
    target: int,
    resume: Text,
    scope: string,
    targets: string,
    versions: map<string, Text>)

  /** A JSON value. */
  datatype Value =
    | Null
    | Bool(b: bool)
    | Num(n: int)
    | Str(text: Text)
    | Arr(elements: seq<Value>)
    | Obj(fields: map<string, Value>)

  const EMPTY := Lit("")

  type Fields = map<string, Value>

  /** The object stored under `key`, or an empty object when there is none. */
  function SubObject(fields: Fields, key: string): Fields {
    if key in fields && fields[key].Obj? then fields[key].fields else map[]
  }

  /** The string stored under `key`, or the empty string when there is none. */
  function SubText(fields: Fields, key: string): Text {
    if key in fields && fields[key].Str? then fields[key].text else EMPTY
  }

  function Get(fields: Fields, key: string): Value {
    if key in fields then fields[key] else Null
  }

  /** net/http delivers three-digit status codes only. */
  type Status = s: int | 100 <= s <= 999 witness 200

  /** What one upstream request came back with: a transport error, or an answer with its body as the
  proxy decodes it, None when it is not a JSON document. */
  datatype Reply = Broken | Answer(status: Status, body: Option<Value>)

  predicate IsSuccess(reply: Reply) {
    reply.Answer? && 200 <= reply.status < 300
  }

  /** The status the client sees when an upstream reply is reported as the failure. */
  function FailureCode(reply: Reply): int {
    if reply.Broken? then 502 else reply.status
  }
}
