/** The part of `ask_claude_about_documents` that rag_sample.py and
    app/app.py share: the retrieved matches' texts joined in retrieval order,
    the fixed Hebrew template around them and the query, the call to the
    language model, and which errors are wrapped. */
module Prompt {
  import opened Wrappers
  import opened PyStr
  import opened External

  /** `top_k` of `query_pinecone`'s default argument. */
  const DefaultTopK: nat := 5

  /** The separator between two documents in the prompt. */
  const DocumentSeparator: string := "\n\n"

  /** "The documents I received are: ", then a blank line. */
  const DocumentsIntro: string := "המסמכים שקיבלתי הם: \n\n"

  /** A blank line, then "Question: ". */
  const QuestionLabel: string := "\n\nשאלה: "

  const AnswerSystem: string :=
    "You are an assistant that helps answer questions in Hebrew based on provided documents."

  /** The message a failed model call is re-raised with, before `str(e)`. */
  const ModelErrorPrefix: string := "Error querying Claude: "

  /** `doc['metadata']['text']`: a `TypeError` when the match has no metadata,
      a `KeyError` when its metadata has no "text" entry. */
  function MatchText(m: Match): (r: Result<MetaValue, PyError>)
    ensures r.Success? <==> m.metadata.Some? && "text" in m.metadata.value
    ensures r.Success? ==> r.value == m.metadata.value["text"]
    ensures m.metadata.None? ==> r.Failure? && r.error.cls == "TypeError"
    ensures m.metadata.Some? && "text" !in m.metadata.value ==> r == Failure(PyError("KeyError", "'text'"))
  {
    match m.metadata
    case None => Failure(PyError("TypeError", "'NoneType' object is not subscriptable"))
    case Some(md) => if "text" in md then Success(md["text"]) else Failure(PyError("KeyError", "'text'"))
  }

  /** The element at `position` of the list handed to `str.join`, which must
      be a string. */
  function AsText(item: (nat, MetaValue)): (r: Result<string, PyError>)
    ensures r.Success? <==> item.1.MetaText?
    ensures r.Success? ==> r.value == item.1.text
    ensures r.Failure? ==> r.error.cls == "TypeError" && "sequence item " <= r.error.message
  {
    match item.1
    case MetaText(t) => Success(t)
    case MetaOther(name) =>
      Failure(PyError("TypeError", "sequence item " + Decimal(item.0) + ": expected str instance, " + name + " found"))
  }

  /** A match whose document text can be joined. */
  predicate HasText(m: Match) {
    m.metadata.Some? && "text" in m.metadata.value && m.metadata.value["text"].MetaText?
  }

  /** The document text of a match that has one. */
  function DocumentText(m: Match): string
    requires HasText(m)
  {
    m.metadata.value["text"].text
  }

  /** The document texts of the matches, in retrieval order. */
  function Texts(ms: seq<Match>): (ts: seq<string>)
    requires forall i :: 0 <= i < |ms| ==> HasText(ms[i])
    ensures |ts| == |ms|
  {
    seq(|ms|, i requires 0 <= i < |ms| && HasText(ms[i]) => DocumentText(ms[i]))
  }

  /** `"\n\n".join([doc['metadata']['text'] for doc in documents])`: first
      every match's text is looked up (the first failing lookup raises), then
      every text must be a string (the first that is not raises `TypeError`).
      It succeeds exactly when every match carries a string text, and then
      is those texts joined by a blank line in retrieval order. */
  function CombinedDocuments(ms: seq<Match>): (r: Result<string, PyError>)
    ensures r.Success? <==> forall i :: 0 <= i < |ms| ==> HasText(ms[i])
    ensures r.Success? ==> r.value == Join(Texts(ms), DocumentSeparator)
    ensures r.Failure? ==> r.error.cls == "KeyError" || r.error.cls == "TypeError"
  {
    match MapAll(MatchText, ms)
    case Failure(e) => Failure(e)
    case Success(vs) =>
      var items := seq(|vs|, i requires 0 <= i < |vs| => (i as nat, vs[i]));
      assert forall i :: 0 <= i < |ms| ==> items[i].1 == MatchText(ms[i]).value;
      match MapAll(AsText, items)
      case Failure(e) =>
        ghost var i :| 0 <= i < |items| && AsText(items[i]) == Failure(e);
        assert !HasText(ms[i]);
        Failure(e)
      case Success(ts) =>
        assert forall i :: 0 <= i < |ms| ==> HasText(ms[i]) && ts[i] == DocumentText(ms[i]) by {
          forall i | 0 <= i < |ms| ensures HasText(ms[i]) && ts[i] == DocumentText(ms[i]) {
            assert AsText(items[i]).Success?;
          }
        }
        assert ts == Texts(ms);
        Success(Join(ts, DocumentSeparator))
  }

  /** The f-string `f"{DocumentsIntro}{combined_documents}{QuestionLabel}{query_text}"`:
      the fixed introduction, then the documents, then the question label,
      then the query, which is therefore the prompt's suffix and follows the
      documents. */
  function FullPrompt(documents: string, queryText: string): (p: string)
    ensures |p| == |DocumentsIntro| + |documents| + |QuestionLabel| + |queryText|
    ensures p[..|DocumentsIntro|] == DocumentsIntro
    ensures p[|DocumentsIntro|..|DocumentsIntro| + |documents|] == documents
    ensures p[|DocumentsIntro| + |documents|..|p| - |queryText|] == QuestionLabel
    ensures p[|p| - |queryText|..] == queryText
  {
    DocumentsIntro + documents + QuestionLabel + queryText
  }

  /** Reads the documents back out of a prompt built for `queryText`. */
  function DocumentsOf(p: string, queryText: string): Option<string> {
    var n := |DocumentsIntro| + |QuestionLabel| + |queryText|;
    if |p| >= n && p[..|DocumentsIntro|] == DocumentsIntro
       && p[|p| - |QuestionLabel| - |queryText|..] == QuestionLabel + queryText
    then Some(p[|DocumentsIntro|..|p| - |QuestionLabel| - |queryText|])
    else None
  }

  /** The documents are recoverable from the prompt built around them, so
      for a fixed query different documents give different prompts. */
  lemma DocumentsOfFullPrompt(documents: string, queryText: string)
    ensures DocumentsOf(FullPrompt(documents, queryText), queryText) == Some(documents)
  {
    var p := FullPrompt(documents, queryText);
    assert p[|p| - |QuestionLabel| - |queryText|..] == QuestionLabel + queryText;
  }

  /** The request `ask_claude_about_documents` sends. */
  function AnswerRequest(prompt: string): (req: Request)
    ensures req.model == ModelName && req.maxTokens == 1024
    ensures req.system == AnswerSystem && req.user == prompt
  {
    Request(ModelName, 1024, AnswerSystem, prompt)
  }

  /** `raise Exception(f"Error querying Claude: {str(e)}")`. */
  function WrapModelError(e: PyError): (w: PyError)
    ensures w.cls == "Exception"
    ensures |w.message| == |ModelErrorPrefix| + |e.message|
    ensures w.message[..|ModelErrorPrefix|] == ModelErrorPrefix && w.message[|ModelErrorPrefix|..] == e.message
  {
    PyError("Exception", ModelErrorPrefix + e.message)
  }

  /** Everything `ask_claude_about_documents` does once retrieval has
      produced `retrieved`. A retrieval error or a failed text lookup raises
      unchanged; the prompt is built from the combined documents and the
      query; a failure of the model call or of reading its reply is re-raised
      as `Exception` whose message is the fixed prefix followed by the
      original message; otherwise the reply text is returned verbatim. */
  function Answer(remote: Remote, queryText: string, retrieved: Result<seq<Match>, PyError>): (r: Result<string, PyError>)
    ensures retrieved.Failure? ==> r == Failure(retrieved.error)
    ensures retrieved.Success? && CombinedDocuments(retrieved.value).Failure? ==>
      r == Failure(CombinedDocuments(retrieved.value).error)
    ensures retrieved.Success? && CombinedDocuments(retrieved.value).Success? ==>
      var reply := ReplyText(remote, AnswerRequest(FullPrompt(CombinedDocuments(retrieved.value).value, queryText)));
      && (reply.Success? ==> r == reply)
      && (reply.Failure? ==> r.Failure? && r.error.cls == "Exception"
                             && r.error.message == ModelErrorPrefix + reply.error.message)
  {
    match retrieved
    case Failure(e) => Failure(e)
    case Success(ms) =>
      match CombinedDocuments(ms)
      case Failure(e) => Failure(e)
      case Success(documents) =>
        match ReplyText(remote, AnswerRequest(FullPrompt(documents, queryText)))
        case Failure(e) => Failure(WrapModelError(e))
        case Success(text) => Success(text)
  }

  /** With no matches the combined documents are empty and the prompt is
      the introduction, the question label and the query; the model is still
      asked. */
  lemma NoMatchesPrompt(queryText: string)
    ensures CombinedDocuments([]) == Success("")
    ensures FullPrompt("", queryText) == DocumentsIntro + QuestionLabel + queryText
  {
  }

  /** A single match contributes its text unchanged. */
  lemma OneMatchCombined(m: Match)
    requires HasText(m)
    ensures CombinedDocuments([m]) == Success(DocumentText(m))
  {
    assert Texts([m]) == [DocumentText(m)];
  }

  /** One more match appends a blank line and its text: the documents appear
      in retrieval order. */
  lemma CombinedAppend(ms: seq<Match>, m: Match)
    requires |ms| >= 1 && forall i :: 0 <= i < |ms| ==> HasText(ms[i])
    requires HasText(m)
    ensures CombinedDocuments(ms + [m]).Success?
    ensures CombinedDocuments(ms + [m]).value
         == CombinedDocuments(ms).value + DocumentSeparator + DocumentText(m)
  {
    var all := ms + [m];
    assert forall i :: 0 <= i < |all| ==> HasText(all[i]) by {
      forall i | 0 <= i < |all| ensures HasText(all[i]) {
        if i < |ms| { assert all[i] == ms[i]; }
      }
    }
    assert Texts(all) == Texts(ms) + [DocumentText(m)];
    JoinAppend(Texts(ms), DocumentText(m), DocumentSeparator);
  }

  /** Matches with texts "A" and "B" and query "Q": the prompt holds
      "A", a blank line and "B" right after the introduction, and ends with
      the question label followed by "Q". */
  lemma TwoMatchesPrompt(a: Match, b: Match, queryText: string)
    requires HasText(a) && HasText(b)
    ensures CombinedDocuments([a, b]).Success?
    ensures
      var ta, tb := DocumentText(a), DocumentText(b);
      var docs := ta + DocumentSeparator + tb;
      var p := FullPrompt(CombinedDocuments([a, b]).value, queryText);
      && CombinedDocuments([a, b]).value == docs
      && p[|DocumentsIntro|..|DocumentsIntro| + |docs|] == docs
      && p[|DocumentsIntro| + |docs|..] == QuestionLabel + queryText
  {
    OneMatchCombined(a);
    CombinedAppend([a], b);
    assert [a] + [b] == [a, b];
  }
}
