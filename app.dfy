/** app/app.py: the embedding without the bracket check, retrieval, the
    answer, and the chat handler behind the user interface. */
module App {
  import opened Wrappers
  import opened PyStr
  import opened External
  import opened Embedding
  import opened Prompt

  /** The primary path of `embed_query` on the model's reply text, with no
      format check: the reply yields a vector exactly when every token of
      `reply.strip('[]').split(',')` converts and there are exactly 1536
      tokens, and the vector is the converted tokens in their order. */
  function ParseReply(parse: string -> Option<Double>, reply: string): (r: Result<Vector, Rejection>)
    ensures r.Success? <==>
      && (forall i :: 0 <= i < |Tokens(reply)| ==> parse(Tokens(reply)[i]).Some?)
      && |Tokens(reply)| == Dimension
    ensures r.Success? ==> |r.value| == Dimension
    ensures r.Success? ==> forall i :: 0 <= i < Dimension ==> r.value[i] == parse(Tokens(reply)[i]).value
    ensures r.Failure? ==> r.error != BadFormat
  {
    ParseBody(parse, reply)
  }

  /** The vector the primary path produces, if it produces one. */
  function Primary(rt: Runtime, remote: Remote, queryText: string): Option<Vector> {
    match ReplyText(remote, EmbedRequest(queryText))
    case Failure(_) => None
    case Success(text) =>
      match ParseReply(rt.parseFloat, text)
      case Success(v) => Some(v)
      case Failure(_) => None
  }

  /** `embed_query`: never raises and always returns 1536 values; they are
      the primary path's vector when it produces one, and otherwise the
      fallback vector of the query text. */
  function EmbedQuery(rt: Runtime, remote: Remote, queryText: string): (v: Vector)
    ensures |v| == Dimension
    ensures Primary(rt, remote, queryText).Some? ==> v == Primary(rt, remote, queryText).value
    ensures Primary(rt, remote, queryText).None? ==> v == Fallback(rt, queryText)
  {
    match Primary(rt, remote, queryText)
    case Some(vs) => vs
    case None => Fallback(rt, queryText)
  }

  /** The primary path produces the parsed reply when the call returns text
      that the parser accepts. */
  lemma PrimaryAccepts(rt: Runtime, remote: Remote, queryText: string, text: string, v: Vector)
    requires ReplyText(remote, EmbedRequest(queryText)) == Success(text)
    requires ParseReply(rt.parseFloat, text) == Success(v)
    ensures EmbedQuery(rt, remote, queryText) == v
  {
  }

  /** A reply of 1536 convertible tokens, bracketed or not, is returned as
      exactly their values, in order. */
  lemma ConvertibleReplyAccepted(rt: Runtime, remote: Remote, queryText: string, reply: string)
    requires ReplyText(remote, EmbedRequest(queryText)) == Success(reply)
    requires |Tokens(reply)| == Dimension
    requires forall i :: 0 <= i < |Tokens(reply)| ==> rt.parseFloat(Tokens(reply)[i]).Some?
    ensures EmbedQuery(rt, remote, queryText) == ListedValues(rt.parseFloat, Tokens(reply))
  {
    var v := ListedValues(rt.parseFloat, Tokens(reply));
    ParseBodyOfTokens(rt.parseFloat, reply, Tokens(reply));
    PrimaryAccepts(rt, remote, queryText, reply, v);
  }

  /** A bare reply `v1,...,v1536`, with no brackets, of well-formed values is
      accepted and returned as exactly those values, in order. */
  lemma UnbracketedListingAccepted(rt: Runtime, remote: Remote, queryText: string, ts: seq<string>)
    requires Listable(ts) && |ts| == Dimension
    requires forall i :: 0 <= i < |ts| ==> rt.parseFloat(ts[i]).Some?
    requires ReplyText(remote, EmbedRequest(queryText)) == Success(Join(ts, ","))
    ensures EmbedQuery(rt, remote, queryText) == ListedValues(rt.parseFloat, ts)
  {
    var reply := Join(ts, ",");
    assert Tokens(reply) == ts by { TokensOfListing(ts); }
    ConvertibleReplyAccepted(rt, remote, queryText, reply);
  }

  /** A reply with a token that does not convert, or with a number of tokens
      other than 1536, makes `embed_query` fall back; the vector still has
      1536 values. */
  lemma BadReplyFallsBack(rt: Runtime, remote: Remote, queryText: string, reply: string)
    requires ReplyText(remote, EmbedRequest(queryText)) == Success(reply)
    requires |Tokens(reply)| != Dimension || exists i :: 0 <= i < |Tokens(reply)| && rt.parseFloat(Tokens(reply)[i]).None?
    ensures EmbedQuery(rt, remote, queryText) == Fallback(rt, queryText)
  {
    assert ParseReply(rt.parseFloat, reply).Failure?;
    assert Primary(rt, remote, queryText) == None;
  }

  /** `query_pinecone`: the index is asked for `topK` matches with metadata
      of the query's 1536-value embedding, and its matches (in the index's
      order) or its error are returned unchanged. */
  function QueryPinecone(rt: Runtime, remote: Remote, queryText: string, topK: nat): (r: Result<seq<Match>, PyError>)
    ensures |EmbedQuery(rt, remote, queryText)| == Dimension
    ensures r == remote.index(EmbedQuery(rt, remote, queryText), topK, true)
  {
    remote.index(EmbedQuery(rt, remote, queryText), topK, true)
  }

  /** `ask_claude_about_documents`: a retrieval error or a failed text lookup
      is raised unchanged; a failure of the model call is re-raised with the
      "Error querying Claude: " prefix; an answer is the model's reply text
      for the prompt built from the five retrieved documents and the query. */
  function AskClaudeAboutDocuments(rt: Runtime, remote: Remote, queryText: string): (r: Result<string, PyError>)
    ensures
      var retrieved := QueryPinecone(rt, remote, queryText, DefaultTopK);
      && (retrieved.Failure? ==> r == Failure(retrieved.error))
      && (retrieved.Success? && CombinedDocuments(retrieved.value).Failure? ==>
            r == Failure(CombinedDocuments(retrieved.value).error))
      && (retrieved.Success? && CombinedDocuments(retrieved.value).Success?
          && ReplyText(remote, AnswerRequest(FullPrompt(CombinedDocuments(retrieved.value).value, queryText))).Success?
          ==> r == ReplyText(remote, AnswerRequest(FullPrompt(CombinedDocuments(retrieved.value).value, queryText))))
      && (r.Success? ==>
            && retrieved.Success? && CombinedDocuments(retrieved.value).Success?
            && r == ReplyText(remote, AnswerRequest(FullPrompt(CombinedDocuments(retrieved.value).value, queryText))))
      && (retrieved.Success? && CombinedDocuments(retrieved.value).Success?
          && ReplyText(remote, AnswerRequest(FullPrompt(CombinedDocuments(retrieved.value).value, queryText))).Failure?
          ==> r.Failure? && r.error.cls == "Exception" && r.error.message == ModelErrorPrefix
                + ReplyText(remote, AnswerRequest(FullPrompt(CombinedDocuments(retrieved.value).value, queryText))).error.message)
  {
    Answer(remote, queryText, QueryPinecone(rt, remote, queryText, DefaultTopK))
  }

  /** `display_hebrew`: reshape, then reorder for display. */
  function DisplayHebrew(rt: Runtime, text: string): (shown: string)
    ensures shown == rt.getDisplay(rt.reshape(text))
  {
    rt.getDisplay(rt.reshape(text))
  }

  /** `chat_function`: the answer to the message, shown through
      `display_hebrew` once; an error raised while answering propagates
      unchanged. */
  function ChatFunction(rt: Runtime, remote: Remote, message: string, history: seq<(string, string)>): (r: Result<string, PyError>)
    ensures AskClaudeAboutDocuments(rt, remote, message).Success? ==>
      r == Success(rt.getDisplay(rt.reshape(AskClaudeAboutDocuments(rt, remote, message).value)))
    ensures AskClaudeAboutDocuments(rt, remote, message).Failure? ==>
      r == Failure(AskClaudeAboutDocuments(rt, remote, message).error)
  {
    match AskClaudeAboutDocuments(rt, remote, message)
    case Failure(e) => Failure(e)
    case Success(answer) => Success(DisplayHebrew(rt, answer))
  }

  /** The conversation history has no influence on the reply. */
  lemma ChatIgnoresHistory(rt: Runtime, remote: Remote, message: string, h1: seq<(string, string)>, h2: seq<(string, string)>)
    ensures ChatFunction(rt, remote, message, h1) == ChatFunction(rt, remote, message, h2)
  {
  }
}
