/** The parts of `embed_query` that rag_sample.py and app/app.py share: the
    request, the token pipeline `[float(x) for x in reply.strip('[]').split(',')]`
    with its dimension check, and the hash-seeded fallback vector. */
module Embedding {
  import opened Wrappers
  import opened PyStr
  import opened Hex
  import opened External

  /** The length of every embedding vector. */
  const Dimension: nat := 1536

  /** The characters `strip('[]')` removes. */
  const Brackets: set<char> := {'[', ']'}

  /** The fallback seed is the digest reduced modulo 2^32 - 1. */
  const SeedModulus: nat := 0x1_0000_0000 - 1

  type Vector = seq<Double>

  /** Why the primary path rejected a reply (each is a `ValueError`). */
  datatype Rejection =
    | BadFormat                   // the reply is not enclosed in '[' ... ']'
    | NotAFloat(token: string)    // `float(token)` raised
    | WrongDimension(count: nat)  // the number of values is not 1536

  const EmbedSystem: string :=
    "You are an assistant that helps create embeddings. Please provide a 1536-dimensional embedding for the given text. Respond only with the embedding values separated by commas, enclosed in square brackets."

  /** The request `embed_query` sends for `queryText`. */
  function EmbedRequest(queryText: string): (req: Request)
    ensures req.model == ModelName && req.maxTokens == Dimension && req.system == EmbedSystem
    ensures |queryText| <= |req.user| && req.user[|req.user| - |queryText|..] == queryText
  {
    Request(ModelName, 1536, EmbedSystem, "Generate a 1536-dimensional embedding for this text: " + queryText)
  }

  /** `reply.strip('[]').split(',')`: there is one token more than there are
      commas inside the stripped reply, so never zero tokens; no token holds a
      comma, and joining them with commas gives the stripped reply back. */
  function Tokens(reply: string): (ts: seq<string>)
    ensures |ts| == CountChar(Strip(reply, Brackets), ',') + 1
    ensures forall i :: 0 <= i < |ts| ==> ',' !in ts[i]
    ensures Join(ts, ",") == Strip(reply, Brackets)
  {
    JoinSplit(Strip(reply, Brackets), ',');
    Split(Strip(reply, Brackets), ',')
  }

  /** `float(token)`, raising on a token that is not a float literal. */
  function ParseToken(parse: string -> Option<Double>, token: string): Result<Double, Rejection> {
    match parse(token)
    case Some(v) => Success(v)
    case None => Failure(NotAFloat(token))
  }

  /** `[float(x) for x in tokens]`: every value in order, or the first token
      that does not convert. */
  function ParseFloats(parse: string -> Option<Double>, tokens: seq<string>): (r: Result<Vector, Rejection>)
    ensures r.Success? <==> forall i :: 0 <= i < |tokens| ==> parse(tokens[i]).Some?
    ensures r.Success? ==> |r.value| == |tokens|
    ensures r.Success? ==> forall i :: 0 <= i < |tokens| ==> r.value[i] == parse(tokens[i]).value
    ensures r.Failure? ==>
      exists i :: 0 <= i < |tokens| && r.error == NotAFloat(tokens[i]) && parse(tokens[i]).None?
        && forall j :: 0 <= j < i ==> parse(tokens[j]).Some?
  {
    var f := t => ParseToken(parse, t);
    assert forall i :: 0 <= i < |tokens| ==> (f(tokens[i]).Success? <==> parse(tokens[i]).Some?);
    MapAll(f, tokens)
  }

  /** The primary path after any format check: the reply yields a vector
      exactly when every token converts and there are exactly 1536 tokens,
      and the vector is the converted tokens in their order. */
  function ParseBody(parse: string -> Option<Double>, reply: string): (r: Result<Vector, Rejection>)
    ensures r.Success? <==>
      (forall i :: 0 <= i < |Tokens(reply)| ==> parse(Tokens(reply)[i]).Some?) && |Tokens(reply)| == Dimension
    ensures r.Success? ==> |r.value| == Dimension
    ensures r.Success? ==> forall i :: 0 <= i < Dimension ==> r.value[i] == parse(Tokens(reply)[i]).value
    ensures r.Failure? ==> r.error.NotAFloat? || r.error == WrongDimension(|Tokens(reply)|)
    ensures r.Failure? && r.error.WrongDimension? ==> r.error.count != Dimension
  {
    match ParseFloats(parse, Tokens(reply))
    case Failure(e) => Failure(e)
    case Success(vs) =>
      if |vs| != 1536 then Failure(WrongDimension(|vs|)) else Success(vs)
  }

  /** Tokens that a model reply may list: none holds a comma, and the
      listing starts and ends with a character that `strip('[]')` keeps. */
  predicate Listable(ts: seq<string>) {
    && |ts| >= 1
    && (forall i :: 0 <= i < |ts| ==> ',' !in ts[i])
    && ts[0] != [] && ts[0][0] !in Brackets
    && ts[|ts| - 1] != [] && ts[|ts| - 1][|ts[|ts| - 1]| - 1] !in Brackets
  }

  /** The first and last characters of a listing are those of its first and
      last tokens. */
  lemma ListingEnds(ts: seq<string>)
    requires Listable(ts)
    ensures var s := Join(ts, ","); |s| > 0 && s[0] == ts[0][0] && s[|s| - 1] == ts[|ts| - 1][|ts[|ts| - 1]| - 1]
  {
    if |ts| > 1 {
      JoinAppend(ts[..|ts| - 1], ts[|ts| - 1], ",");
      assert ts[..|ts| - 1] + [ts[|ts| - 1]] == ts;
    }
  }

  /** A bare listing `v1,v2,...` splits back into its tokens. */
  lemma TokensOfListing(ts: seq<string>)
    requires Listable(ts)
    ensures Tokens(Join(ts, ",")) == ts
  {
    ListingEnds(ts);
    StripUnchanged(Join(ts, ","), Brackets);
    SplitJoin(ts, ',');
  }

  /** A bracketed listing `[v1,v2,...]` splits back into its tokens. */
  lemma TokensOfBracketedListing(ts: seq<string>)
    requires Listable(ts)
    ensures Tokens("[" + Join(ts, ",") + "]") == ts
  {
    var s := Join(ts, ",");
    var reply := "[" + s + "]";
    ListingEnds(ts);
    assert reply[1..|reply| - 1] == s;
    StripUnique(reply, Brackets, 1, |reply| - 1);
    SplitJoin(ts, ',');
  }

  /** The values a listing of 1536 convertible tokens denotes. */
  function ListedValues(parse: string -> Option<Double>, ts: seq<string>): (v: Vector)
    requires forall i :: 0 <= i < |ts| ==> parse(ts[i]).Some?
    ensures |v| == |ts|
  {
    seq(|ts|, i requires 0 <= i < |ts| && parse(ts[i]).Some? => parse(ts[i]).value)
  }

  /** A reply whose tokens are 1536 convertible listed tokens yields their
      values. */
  lemma ParseBodyOfTokens(parse: string -> Option<Double>, reply: string, ts: seq<string>)
    requires Tokens(reply) == ts && |ts| == Dimension
    requires forall i :: 0 <= i < |ts| ==> parse(ts[i]).Some?
    ensures ParseBody(parse, reply) == Success(ListedValues(parse, ts))
  {
    var r := ParseBody(parse, reply);
    assert r.Success?;
    assert r.value == ListedValues(parse, ts);
  }

  /** `int(hashlib.md5(...).hexdigest(), 16) % (2**32 - 1)`: the conversion
      never raises, the seed is the digest's value reduced modulo 2^32 - 1,
      and so it lies in 0 .. 2^32 - 2, inside the range numpy accepts. */
  function FallbackSeed(d: Digest): (seed: Seed)
    ensures seed == BigEndian(d) % SeedModulus
    ensures seed < SeedModulus
  {
    ParseHexDigest(d);
    ParseHex(HexDigest(d)).value % 0xFFFF_FFFF
  }

  /** The fallback embedding: 1536 draws of `np.random.rand` in order, after
      seeding with the query text's digest. It depends on the text only
      through the md5 digest, and every value lies in [0, 1). */
  function Fallback(rt: Runtime, queryText: string): (v: Vector)
    ensures |v| == Dimension
    ensures forall i :: 0 <= i < Dimension ==> v[i] == rt.rand(FallbackSeed(rt.md5(queryText)), i)
    ensures forall i :: 0 <= i < Dimension ==> v[i] < 0x3FF0_0000_0000_0000
  {
    var seed := FallbackSeed(rt.md5(queryText));
    seq(1536, i requires 0 <= i < 1536 => rt.rand(seed, i) as Double)
  }

  /** Equal query texts, or merely texts with equal md5 digests, give the
      same fallback vector. */
  lemma FallbackDeterministic(rt: Runtime, t1: string, t2: string)
    requires rt.md5(t1) == rt.md5(t2)
    ensures Fallback(rt, t1) == Fallback(rt, t2)
  {
  }
}
