/** rag_sample.py: the embedding with its bracket check, retrieval, and the
    answer to a question about the retrieved documents. */
module RagSample {
  import opened Wrappers
  import opened PyStr
  import opened External
  import opened Embedding
  import opened Prompt

  /** The format check: the reply starts with '[' and ends with ']'. */
  predicate Bracketed(reply: string) {
    StartsWith(reply, '[') && EndsWith(reply, ']')
  }

  /** A bracketed reply is a `[`, at least two characters long, then
      anything, then a `]`; a single `[` is not bracketed. */
  lemma BracketedShape(reply: string)
    ensures Bracketed(reply) <==> |reply| >= 2 && reply == "[" + reply[1..|reply| - 1] + "]"
  {
    if |reply| >= 2 {
      var inner := reply[1..|reply| - 1];
      if reply == "[" + inner + "]" {
        assert reply[0] == '[' && reply[|reply| - 1] == ']';
      }
      if Bracketed(reply) {
        assert reply == [reply[0]] + inner + [reply[|reply| - 1]];
      }
    }
  }

  /** The primary path of `embed_query` on the model's reply text: a reply
      not enclosed in brackets is rejected before anything is parsed;
      otherwise the reply yields a vector exactly when every token converts
      and there are exactly 1536 tokens, and the vector is the converted
      tokens in their order. */
  function ParseReply(parse: string -> Option<Double>, reply: string): (r: Result<Vector, Rejection>)
    ensures !Bracketed(reply) ==> r == Failure(BadFormat)
    ensures r.Success? <==>
      && Bracketed(reply)
      && (forall i :: 0 <= i < |Tokens(reply)| ==> parse(Tokens(reply)[i]).Some?)
      && |Tokens(reply)| == Dimension
    ensures r.Success? ==> |r.value| == Dimension
    ensures r.Success? ==> forall i :: 0 <= i < Dimension ==> r.value[i] == parse(Tokens(reply)[i]).value
  {
    if !StartsWith(reply, '[') || !EndsWith(reply, ']') then Failure(BadFormat)
    else ParseBody(parse, reply)
  }

  /** The vector the primary path produces, if it produces one: none when the
      model call or reading its reply raises, or the reply is rejected. */
  function Primary(rt: Runtime, remote: Remote, queryText: string): Option<Vector> {
    match ReplyText(remote, EmbedRequest(queryText))
    case Failure(_) => None
    case Success(text) =>
      match ParseReply(rt.parseFloat, text)
      case Success(v) => Some(v)
      case Failure(_) => None
  }

  /** `embed_query`: never raises and always returns 1536 values; they are
      the primary path's vector when it produces one, and otherwise the
      fallback vector of the query text. */
  function EmbedQuery(rt: Runtime, remote: Remote, queryText: string): (v: Vector)
    ensures |v| == Dimension
    ensures Primary(rt, remote, queryText).Some? ==> v == Primary(rt, remote, queryText).value
    ensures Primary(rt, remote, queryText).None? ==> v == Fallback(rt, queryText)
  {
    match Primary(rt, remote, queryText)
    case Some(vs) => vs
    case None => Fallback(rt, queryText)
  }

  /** The primary path produces the parsed reply when the call returns text
      that the parser accepts. */
  lemma PrimaryAccepts(rt: Runtime, remote: Remote, queryText: string, text: string, v: Vector)
    requires ReplyText(remote, EmbedRequest(queryText)) == Success(text)
    requires ParseReply(rt.parseFloat, text) == Success(v)
    ensures EmbedQuery(rt, remote, queryText) == v
  {
  }

  /** A reply that does not start with '[' or does not end with ']' makes
      `embed_query` fall back, whatever it contains. */
  lemma UnbracketedFallsBack(rt: Runtime, remote: Remote, queryText: string)
    requires ReplyText(remote, EmbedRequest(queryText)).Success?
    requires !Bracketed(ReplyText(remote, EmbedRequest(queryText)).value)
    ensures EmbedQuery(rt, remote, queryText) == Fallback(rt, queryText)
  {
  }

  /** A bracketed reply of 1536 convertible tokens is returned as exactly
      their values, in order. */
  lemma BracketedReplyAccepted(rt: Runtime, remote: Remote, queryText: string, reply: string)
    requires ReplyText(remote, EmbedRequest(queryText)) == Success(reply)
    requires Bracketed(reply) && |Tokens(reply)| == Dimension
    requires forall i :: 0 <= i < |Tokens(reply)| ==> rt.parseFloat(Tokens(reply)[i]).Some?
    ensures EmbedQuery(rt, remote, queryText) == ListedValues(rt.parseFloat, Tokens(reply))
  {
    var v := ListedValues(rt.parseFloat, Tokens(reply));
    ParseBodyOfTokens(rt.parseFloat, reply, Tokens(reply));
    PrimaryAccepts(rt, remote, queryText, reply, v);
  }

  /** A reply `[v1,...,v1536]` of well-formed values is returned as exactly
      those values, in order. */
  lemma BracketedListingAccepted(rt: Runtime, remote: Remote, queryText: string, ts: seq<string>)
    requires Listable(ts) && |ts| == Dimension
    requires forall i :: 0 <= i < |ts| ==> rt.parseFloat(ts[i]).Some?
    requires ReplyText(remote, EmbedRequest(queryText)) == Success("[" + Join(ts, ",") + "]")
    ensures EmbedQuery(rt, remote, queryText) == ListedValues(rt.parseFloat, ts)
  {
    var reply := "[" + Join(ts, ",") + "]";
    assert Bracketed(reply);
    assert Tokens(reply) == ts by { TokensOfBracketedListing(ts); }
    BracketedReplyAccepted(rt, remote, queryText, reply);
  }

  /** A reply with a token that does not convert, or with a number of tokens
      other than 1536, makes `embed_query` fall back. */
  lemma BadReplyFallsBack(rt: Runtime, remote: Remote, queryText: string, reply: string)
    requires ReplyText(remote, EmbedRequest(queryText)) == Success(reply)
    requires |Tokens(reply)| != Dimension || exists i :: 0 <= i < |Tokens(reply)| && rt.parseFloat(Tokens(reply)[i]).None?
    ensures EmbedQuery(rt, remote, queryText) == Fallback(rt, queryText)
  {
    assert ParseReply(rt.parseFloat, reply).Failure?;
    assert Primary(rt, remote, queryText) == None;
  }

  /** `query_pinecone`: the index is asked for `topK` matches with metadata
      of the query's 1536-value embedding, and its matches (in the index's
      order) or its error are returned unchanged. */
  function QueryPinecone(rt: Runtime, remote: Remote, queryText: string, topK: nat): (r: Result<seq<Match>, PyError>)
    ensures |EmbedQuery(rt, remote, queryText)| == Dimension
    ensures r == remote.index(EmbedQuery(rt, remote, queryText), topK, true)
  {
    remote.index(EmbedQuery(rt, remote, queryText), topK, true)
  }

  /** `ask_claude_about_documents`: a retrieval error or a failed text lookup
      is raised unchanged; a failure of the model call is re-raised with the
      "Error querying Claude: " prefix; an answer is the model's reply text
      for the prompt built from the five retrieved documents and the query. */
  function AskClaudeAboutDocuments(rt: Runtime, remote: Remote, queryText: string): (r: Result<string, PyError>)
    ensures
      var retrieved := QueryPinecone(rt, remote, queryText, DefaultTopK);
      && (retrieved.Failure? ==> r == Failure(retrieved.error))
      && (retrieved.Success? && CombinedDocuments(retrieved.value).Failure? ==>
            r == Failure(CombinedDocuments(retrieved.value).error))
      && (retrieved.Success? && CombinedDocuments(retrieved.value).Success?
          && ReplyText(remote, AnswerRequest(FullPrompt(CombinedDocuments(retrieved.value).value, queryText))).Success?
          ==> r == ReplyText(remote, AnswerRequest(FullPrompt(CombinedDocuments(retrieved.value).value, queryText))))
      && (r.Success? ==>
            && retrieved.Success? && CombinedDocuments(retrieved.value).Success?
            && r == ReplyText(remote, AnswerRequest(FullPrompt(CombinedDocuments(retrieved.value).value, queryText))))
      && (retrieved.Success? && CombinedDocuments(retrieved.value).Success?
          && ReplyText(remote, AnswerRequest(FullPrompt(CombinedDocuments(retrieved.value).value, queryText))).Failure?
          ==> r.Failure? && r.error.cls == "Exception" && r.error.message == ModelErrorPrefix
                + ReplyText(remote, AnswerRequest(FullPrompt(CombinedDocuments(retrieved.value).value, queryText))).error.message)
  {
    Answer(remote, queryText, QueryPinecone(rt, remote, queryText, DefaultTopK))
  }
}
