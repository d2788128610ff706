/** Chat messages as the history middleware sees them. */
module Messages {
  import opened Common

  /** JSON or provider data that no pass of the middleware looks into. */
  type Blob = string

  /** A loosely typed field: absent, a string, or some other value with its `str()` text. */
  datatype Value = Null | Text(text: string) | NonText(repr: string)

  /** The `args` of a call: an object (its `code` field singled out), or anything else. */
  datatype Args = Object(code: Value, rest: Blob) | NotObject(raw: Blob)

  datatype Call = Call(id: Value, name: Value, args: Args, rest: Blob)

  /** One element of a structured message content. */
  datatype Block =
    | ToolUse(id: Value, input: Args, rest: Blob)
    | ToolCall(id: Value, args: Args, rest: Blob)
    | OtherBlock(raw: Blob)

  datatype Prose = Plain(text: Blob) | Blocks(blocks: seq<Block>)

  /** A code-execution receipt: what `json.loads` makes of a tool result that holds an object.
      `legacyRoot` is the execution directory when the saved stdout path has the layout
      `<root>/logs/<file>` with `<root>` named after the execution. */
  datatype Receipt = Receipt(
    executionId: Value,
    state: Value,
    savedCodePath: Value,
    legacyRoot: Option<string>,
    stdout: Stream,
    stderr: Stream,
    rest: Blob)

  /** One captured stream of a receipt, with the retrieval path recorded under `logs`. */
  datatype Stream = Stream(value: Value, log: Option<string>, truncated: bool)

  datatype Content = Json(receipt: Receipt) | Opaque(raw: Blob)

  datatype ResultStatus = Success | Error

  datatype Message =
    | AI(prose: Prose, calls: seq<Call>, invalid: seq<Blob>, rawCalls: Option<Blob>, extra: Blob)
    | Tool(id: Value, name: Value, content: Content, status: ResultStatus)
    | Other(body: Blob)

  /** The characters that Python's `str.strip` removes. */
  predicate IsSpace(c: char) {
    var n := c as int;
    9 <= n <= 13 || 28 <= n <= 32 || n == 0x85 || n == 0xA0 || n == 0x1680
    || 0x2000 <= n <= 0x200A || n == 0x2028 || n == 0x2029 || n == 0x202F || n == 0x205F || n == 0x3000
  }

  predicate Blank(v: Value) {
    v.Null? || (v.Text? && forall i :: 0 <= i < |v.text| ==> IsSpace(v.text[i]))
  }

  /** `str(value)`. */
  function Str(v: Value): string {
    match v
    case Null => "None"
    case Text(s) => s
    case NonText(r) => r
  }
}
