/** How the two copies of the pipeline relate: app/app.py's parser accepts
    everything rag_sample.py's accepts, with the same vector, and more; when
    the two embeddings agree, so do the answers. */
module Variants {
  import opened Wrappers
  import opened PyStr
  import opened External
  import opened Embedding
  import opened Prompt
  import RagSample
  import App

  /** On a reply in brackets the two parsers give the same outcome, vector
      or rejection. */
  lemma ParsersAgreeOnBracketed(parse: string -> Option<Double>, reply: string)
    requires RagSample.Bracketed(reply)
    ensures App.ParseReply(parse, reply) == RagSample.ParseReply(parse, reply)
  {
  }

  /** Every reply rag_sample.py accepts, app/app.py accepts with the same
      vector. */
  lemma LenientAcceptsWhatStrictAccepts(parse: string -> Option<Double>, reply: string)
    requires RagSample.ParseReply(parse, reply).Success?
    ensures App.ParseReply(parse, reply) == RagSample.ParseReply(parse, reply)
  {
  }

  /** The converse fails: a bare listing of 1536 convertible values, with no
      brackets, is accepted by app/app.py and rejected by rag_sample.py. */
  lemma LenientAcceptsMore(parse: string -> Option<Double>, ts: seq<string>)
    requires Listable(ts) && |ts| == Dimension
    requires forall i :: 0 <= i < |ts| ==> parse(ts[i]).Some?
    ensures App.ParseReply(parse, Join(ts, ",")) == Success(ListedValues(parse, ts))
    ensures RagSample.ParseReply(parse, Join(ts, ",")) == Failure(BadFormat)
  {
    var reply := Join(ts, ",");
    assert Tokens(reply) == ts by { TokensOfListing(ts); }
    ParseBodyOfTokens(parse, reply, ts);
    assert !RagSample.Bracketed(reply) by { ListingEnds(ts); }
  }

  /** The two `embed_query` functions return the same vector unless the
      model's reply is free of the bracket format and app/app.py accepts it
      while rag_sample.py falls back. */
  lemma EmbeddingsDifferOnlyWithoutBrackets(rt: Runtime, remote: Remote, queryText: string)
    ensures RagSample.EmbedQuery(rt, remote, queryText) != App.EmbedQuery(rt, remote, queryText) ==>
      && ReplyText(remote, EmbedRequest(queryText)).Success?
      && !RagSample.Bracketed(ReplyText(remote, EmbedRequest(queryText)).value)
      && App.Primary(rt, remote, queryText).Some?
      && RagSample.EmbedQuery(rt, remote, queryText) == Fallback(rt, queryText)
  {
    match ReplyText(remote, EmbedRequest(queryText))
    case Failure(_) =>
    case Success(text) =>
      if RagSample.Bracketed(text) {
        ParsersAgreeOnBracketed(rt.parseFloat, text);
      }
  }

  /** When the two embeddings agree, the two `ask_claude_about_documents`
      give the same outcome: a blank-line join of the texts in retrieval
      order inside the same template, sent in the same request. */
  lemma AnswersAgree(rt: Runtime, remote: Remote, queryText: string)
    requires RagSample.EmbedQuery(rt, remote, queryText) == App.EmbedQuery(rt, remote, queryText)
    ensures RagSample.AskClaudeAboutDocuments(rt, remote, queryText) == App.AskClaudeAboutDocuments(rt, remote, queryText)
  {
  }
}
