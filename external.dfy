/** The collaborators the pipeline calls but does not implement: the Python
    runtime's own conversions and libraries, and the two hosted services.
    Each is a function-valued field, so every property proved about the
    pipeline holds for every behaviour these collaborators could have. */
module External {
  import opened Wrappers
  import opened Hex

  /** A Python `float`, as the 64 bits of its IEEE 754 binary64 encoding. */
  type Double = bv64

  /** Bit patterns of the binary64 values in [0, 1): +0.0 up to the largest
      double below 1.0, whose successor 1.0 is 0x3FF0_0000_0000_0000. */
  type UnitDouble = b: bv64 | b < 0x3FF0_0000_0000_0000

  /** An md5 digest: 16 bytes. */
  type Digest = d: seq<Byte> | |d| == 16 witness seq(16, _ => 0)

  /** The seeds `numpy.random.seed` accepts: 0 to 2^32 - 1. */
  type Seed = n: int | 0 <= n < 0x1_0000_0000

  /** A raised Python exception: its class name and `str(e)`. */
  datatype PyError = PyError(cls: string, message: string)

  /** The model identifier both calls to the language model name. */
  const ModelName: string := "claude-3-opus-20240229"

  /** One `claude.messages.create` call: the model, `max_tokens`, the
      `system` instruction and the text of the single user turn. */
  datatype Request = Request(model: string, maxTokens: nat, system: string, user: string)

  /** An element of a response's `content` list. */
  datatype Block = TextBlock(text: string) | OtherBlock(typeName: string)

  /** A metadata value stored with a vector: a string, or any other JSON type. */
  datatype MetaValue = MetaText(text: string) | MetaOther(typeName: string)

  /** One element of a query response's `matches`; `metadata` is None when the
      index returned no metadata for the match. */
  datatype Match = Match(id: string, score: Double, metadata: Option<map<string, MetaValue>>)

  /** The local libraries, all deterministic:
      `parseFloat` is `float(token)` (None where it raises `ValueError`);
      `md5` is `hashlib.md5(text.encode()).digest()`;
      `rand(seed, i)` is the `i`-th value of `np.random.rand(n)` right after
      `np.random.seed(seed)`;
      `reshape` is `arabic_reshaper.reshape`; `getDisplay` is `bidi`'s `get_display`. */
  datatype Runtime = Runtime(
    parseFloat: string -> Option<Double>,
    md5: string -> Digest,
    rand: (Seed, nat) -> UnitDouble,
    reshape: string -> string,
    getDisplay: string -> string)

  /** The hosted services, each as its answer to a request at the moment of
      the call: `claude` is `claude.messages.create` returning `response.content`
      or raising; `index(vector, topK, includeMetadata)` is `index.query(...)`
      returning `result['matches']` or raising. */
  datatype Remote = Remote(
    claude: Request -> Result<seq<Block>, PyError>,
    index: (seq<Double>, nat, bool) -> Result<seq<Match>, PyError>)

  /** `response.content[0].text`: an `IndexError` when `content` is empty, an
      `AttributeError` when the first block carries no text. */
  function FirstText(content: seq<Block>): (r: Result<string, PyError>)
    ensures r.Success? <==> |content| > 0 && content[0].TextBlock?
    ensures r.Success? ==> r.value == content[0].text
    ensures |content| == 0 ==> r.Failure? && r.error.cls == "IndexError"
    ensures |content| > 0 && content[0].OtherBlock? ==> r.Failure? && r.error.cls == "AttributeError"
  {
    if |content| == 0 then Failure(PyError("IndexError", "list index out of range"))
    else match content[0]
      case TextBlock(t) => Success(t)
      case OtherBlock(name) => Failure(PyError("AttributeError", "'" + name + "' object has no attribute 'text'"))
  }

  /** The text of the language model's reply to `req`, or the error raised on
      the way to it. */
  function ReplyText(remote: Remote, req: Request): (r: Result<string, PyError>)
    ensures remote.claude(req).Failure? ==> r == Failure(remote.claude(req).error)
    ensures r.Success? <==>
      && remote.claude(req).Success?
      && |remote.claude(req).value| > 0
      && remote.claude(req).value[0].TextBlock?
    ensures r.Success? ==> r.value == remote.claude(req).value[0].text
  {
    match remote.claude(req)
    case Failure(e) => Failure(e)
    case Success(content) => FirstText(content)
  }
}
