# Hebrew RAG chat: embedding parser, fallback and prompt assembly

This project models the deterministic logic of a retrieval-augmented chat
tool. The tool asks a language model (Claude) for an embedding of a Hebrew
question and retrieves similar documents from a vector index (Pinecone).
It then asks the model to answer from those documents and reorders the
answer for right-to-left display.

The logic exists twice, with differences, in `rag_sample.py` and
`app/app.py`. The model keeps the two side by side:

- `RagSample` and `App` hold each file's own functions.
- `Embedding` and `Prompt` hold the code the two files share word for word.
- `Variants` proves how the two copies relate.

What is modelled:

- **Embedding reply parsing.** `rag_sample.py` first checks that the reply
  starts with `[` and ends with `]`; `app/app.py` does not. Then both run
  `reply.strip('[]').split(',')`, convert each token with `float`, and
  require exactly 1536 values.
- **Fallback vector.** On any failure the vector comes from the query text
  alone. The text's md5 digest is written as hex, read back as an integer
  and reduced modulo 2^32 − 1 to a seed. The vector is 1536 seeded
  `np.random.rand` draws.
- **Prompt assembly.** The `metadata['text']` of each match is joined with
  a blank line in retrieval order. The result is wrapped in the fixed Hebrew
  template "the documents I received are:" … "Question:" followed by the
  query.
- **Errors.** Retrieval and metadata errors propagate unchanged. A failing
  model call is re-raised as `Exception("Error querying Claude: " + str(e))`.
- **Chat handler.** `chat_function` applies `display_hebrew` once to the
  answer and ignores the history.

Python's `str` operations (`strip`, `split`, `join`, `startswith`,
`endswith`) are modelled in `PyStr`, with their laws proved there (for
example, split and join undo each other). `hexdigest` and `int(_, 16)` are
modelled in `Hex`.

Collaborators the code calls but does not implement are function-valued
parameters, so every result holds for every behaviour they might have:

- `External.Runtime` holds `float()`, md5 including `str.encode`, numpy's
  seeded draws, `arabic_reshaper.reshape` and `get_display`.
- `External.Remote` holds the Claude and Pinecone services. Each is taken as
  its answer to a request at the moment of the call: reply content or a
  raised error.

Python exceptions are `Result` failures carrying the class name and
`str(e)`. A Python float is the 64-bit pattern of its IEEE 754 binary64
value. No floating-point arithmetic is involved.

Points of the code that are easy to misread:

- `ask_claude_about_documents` re-raises a model-call failure as
  `Exception(...)`; it never returns an error string.
- `strip('[]')` removes every `[` and `]` at both ends, not just one leading
  `[` and one trailing `]`.
- The seed is reduced modulo 2^32 − 1, so the seed 2^32 − 1 never occurs.
- `chat_function` ignores its `history` argument and keeps no history of its
  own.

## Model

| member | source | states |
|---|---|---|
| `PyStr.Strip` | rag_sample.py:62 | `strip('[]')` returns the slice of the reply whose outside consists only of bracket characters and whose two ends are not brackets |
| `PyStr.StripUnique` | rag_sample.py:62 | that characterisation determines the stripped string: any such slice equals it |
| `PyStr.Split` | rag_sample.py:62 | `split(',')` gives one piece more than there are commas, so never zero pieces, and no piece contains a comma |
| `PyStr.JoinSplit` | rag_sample.py:62 | joining the pieces of a split with the separator gives the original string |
| `PyStr.SplitJoin` | rag_sample.py:62 | splitting a join of comma-free pieces gives the pieces back |
| `PyStr.JoinEnds` | rag_sample.py:85 | `sep.join(xs)` of no pieces is the empty string; otherwise the first piece begins the result and the last piece ends it |
| `PyStr.JoinAppend` | rag_sample.py:85 | joining one more piece appends the separator and that piece, so pieces keep their order |
| `Wrappers.MapAll` | rag_sample.py:62 | a list comprehension whose element conversion may raise either succeeds with every result in order, exactly when every element converts, or raises the error of the first element that fails |
| `Hex.HexDigest` | rag_sample.py:75 | `hexdigest()` has twice as many characters as the digest has bytes |
| `Hex.HexDigestDigits` | rag_sample.py:75 | byte `i` of the digest appears at positions `2i` and `2i+1` as the lower-case hex digits of its high and low nibble |
| `Hex.ParseHex` | rag_sample.py:76 | `int(s, 16)` succeeds exactly on non-empty strings of hex digits |
| `Hex.DigitsValueDefined` | rag_sample.py:76 | reading a string as base-16 digits succeeds exactly when every character is a lower- or upper-case hex digit |
| `Hex.DigitsValueHexDigest` | rag_sample.py:75-76 | reading a hex digest as base 16 gives the big-endian value of the digest bytes |
| `Hex.ParseHexDigest` | rag_sample.py:75-76 | `int(hexdigest, 16)` never raises on a digest and equals its big-endian value |
| `External.FirstText` | rag_sample.py:56 | `response.content[0].text` succeeds exactly when the first block is text; it raises `IndexError` on empty content and `AttributeError` on a non-text block |
| `External.ReplyText` | rag_sample.py:48-56 | the reply text exists exactly when the call succeeds and its first content block is text, and is that block's text; an error raised by the call propagates unchanged (the same access is at rag_sample.py:90-98) |
| `Embedding.EmbedRequest` | rag_sample.py:48-55 | the embedding request names the model with `max_tokens` 1536 and the embedding instruction, and its user turn ends with the query text |
| `Embedding.Tokens` | rag_sample.py:62 | the tokens are the comma-separated pieces of the bracket-stripped reply: comma count + 1 of them, none containing a comma, and they re-join to the stripped reply |
| `Embedding.ParseFloats` | rag_sample.py:62 | `[float(x) for x in tokens]` succeeds exactly when every token converts, giving the values in token order; otherwise it fails on the first token that does not convert |
| `Embedding.ParseBody` | rag_sample.py:62-68 | the shared parse succeeds exactly when every token converts and there are exactly 1536 tokens, and then returns the converted tokens in order; otherwise it fails with a non-float token or a count other than 1536 (the same code is at app/app.py:44-47) |
| `Embedding.ParseBodyOfTokens` | rag_sample.py:62-68 | a reply whose tokens are 1536 convertible tokens yields exactly their values |
| `Embedding.TokensOfListing` | app/app.py:44 | a bare listing `v1,...,vn` splits back into exactly its tokens |
| `Embedding.TokensOfBracketedListing` | rag_sample.py:62 | a bracketed listing `[v1,...,vn]` splits back into exactly its tokens |
| `Embedding.FallbackSeed` | rag_sample.py:74-76 | the seed is the md5 digest's integer value modulo 2^32 − 1, so it lies in 0 .. 2^32 − 2, which is within numpy's seed range (the same code is at app/app.py:50-52) |
| `Embedding.Fallback` | rag_sample.py:73-79 | the fallback vector has exactly 1536 values: the seeded draws in order, each in [0, 1) (the same code is at app/app.py:50-54) |
| `Embedding.FallbackDeterministic` | rag_sample.py:74-78 | texts with equal md5 digests, and so equal texts, give the same fallback vector |
| `Prompt.MatchText` | rag_sample.py:85 | `doc['metadata']['text']` succeeds exactly when the match has metadata with a "text" entry; a missing entry raises `KeyError('text')` and absent metadata raises `TypeError` |
| `Prompt.AsText` | rag_sample.py:85 | `str.join` accepts an item exactly when it is a string, and takes it unchanged; any other item raises a `TypeError` whose message begins "sequence item " |
| `Prompt.CombinedDocuments` | rag_sample.py:85 | the combined documents exist exactly when every match has a string text, and are those texts joined by `"\n\n"` in retrieval order; otherwise a `KeyError` or `TypeError` is raised (the same code is at app/app.py:63) |
| `Prompt.NoMatchesPrompt` | rag_sample.py:85-87 | zero matches give the empty document string, and the prompt is the introduction, the question label and the query |
| `Prompt.OneMatchCombined` | rag_sample.py:85 | one match gives its text unchanged |
| `Prompt.CombinedAppend` | rag_sample.py:85 | one more match appends a blank line and its text, so documents appear in retrieval order |
| `Prompt.TwoMatchesPrompt` | rag_sample.py:85-87 | texts "A" and "B" appear as "A\n\nB" right after the introduction, followed by the question label and the query |
| `Prompt.FullPrompt` | rag_sample.py:87 | the prompt is the fixed Hebrew introduction, then the documents, then `"\n\nשאלה: "`, then the query, so the query is its suffix and follows the documents (the same code is at app/app.py:64) |
| `Prompt.DocumentsOfFullPrompt` | rag_sample.py:87 | the documents can be read back from the prompt given the query, so for one query different documents give different prompts |
| `Prompt.AnswerRequest` | rag_sample.py:90-96 | the answer request names the model with `max_tokens` 1024 and the Hebrew-answer system text, and its user turn is exactly the prompt |
| `Prompt.WrapModelError` | rag_sample.py:100 | the re-raised error is an `Exception` whose message is "Error querying Claude: " followed by exactly the original message |
| `Prompt.Answer` | rag_sample.py:83-100 | retrieval and lookup errors propagate unchanged; a model-call failure is re-raised as `Exception` whose message is `"Error querying Claude: "` followed by the original message; otherwise the model's reply text is returned verbatim |
| `RagSample.ParseReply` | rag_sample.py:58-66 | a reply not starting with `[` or not ending with `]` is rejected; a reply is accepted exactly when it is bracketed, every token converts and there are 1536 tokens, and then yields the tokens' values in order |
| `RagSample.EmbedQuery` | rag_sample.py:46-79 | `embed_query` never raises and always returns 1536 values: the primary vector when the call and parse succeed, otherwise the fallback |
| `RagSample.UnbracketedFallsBack` | rag_sample.py:59-60 | an unbracketed reply always leads to the fallback vector |
| `RagSample.BracketedShape` | rag_sample.py:59 | `startswith('[')` and `endswith(']')` both hold exactly when the reply has at least two characters, opens with `[` and closes with `]`; a lone `[` fails the check |
| `RagSample.BracketedReplyAccepted` | rag_sample.py:59-68 | a bracketed reply whose tokens are 1536 convertible values is returned as exactly those values in order |
| `RagSample.BracketedListingAccepted` | rag_sample.py:59-68 | a reply `[v1,...,v1536]` of well-formed values is returned as exactly those values in order |
| `RagSample.BadReplyFallsBack` | rag_sample.py:62-79 | a non-converting token or a token count other than 1536 leads to the fallback vector |
| `RagSample.QueryPinecone` | rag_sample.py:40-43 | the index is queried with the 1536-value embedding, `top_k` and `include_metadata=True`, and its matches (in its order) or its error are returned unchanged |
| `RagSample.AskClaudeAboutDocuments` | rag_sample.py:82-100 | with `top_k` 5, a retrieval error and a metadata `KeyError`/`TypeError` propagate unchanged; a successful model reply is returned exactly, and an answer is only ever such a reply; a model-call failure carries the `"Error querying Claude: "` prefix |
| `App.ParseReply` | app/app.py:43-47 | with no bracket check, a reply is accepted exactly when every token converts and there are 1536 tokens, yielding their values in order; it is never rejected for format |
| `App.ConvertibleReplyAccepted` | app/app.py:43-47 | a reply of 1536 convertible tokens, with or without brackets, is returned as exactly their values in order |
| `App.EmbedQuery` | app/app.py:33-54 | `embed_query` never raises and always returns 1536 values: the primary vector when the call and parse succeed, otherwise the fallback |
| `App.UnbracketedListingAccepted` | app/app.py:43-47 | a reply `v1,...,v1536` with no brackets and well-formed values is accepted as exactly those values |
| `App.BadReplyFallsBack` | app/app.py:44-54 | a non-converting token or a token count other than 1536 leads to the fallback vector |
| `App.QueryPinecone` | app/app.py:56-59 | the index is queried with the 1536-value embedding, `top_k` and `include_metadata=True`, and its outcome is returned unchanged |
| `App.AskClaudeAboutDocuments` | app/app.py:61-76 | with `top_k` 5, a retrieval error and a metadata `KeyError`/`TypeError` propagate unchanged; a successful model reply is returned exactly, and an answer is only ever such a reply; a model-call failure carries the `"Error querying Claude: "` prefix |
| `App.ChatFunction` | app/app.py:83-86 | the reply is `get_display(reshape(answer))`, applied once; an error raised while answering propagates unchanged |
| `App.DisplayHebrew` | app/app.py:78-81 | the displayed text is the reshaped text passed through the bidirectional reordering, each applied once and in that order |
| `App.ChatIgnoresHistory` | app/app.py:83-86 | the history argument has no influence on the reply |
| `Variants.ParsersAgreeOnBracketed` | app/app.py:44-47 | on a bracketed reply the two files' parsers give the same outcome |
| `Variants.LenientAcceptsWhatStrictAccepts` | app/app.py:44-47 | every reply rag_sample.py accepts, app/app.py accepts with the same vector |
| `Variants.LenientAcceptsMore` | app/app.py:43-47 | a bare listing of 1536 convertible values is accepted by app/app.py and rejected for format by rag_sample.py |
| `Variants.EmbeddingsDifferOnlyWithoutBrackets` | app/app.py:43-54 | the two embeddings differ only when the reply lacks the brackets and app/app.py accepts it while rag_sample.py falls back |
| `Variants.AnswersAgree` | app/app.py:61-64 | when the embeddings agree, the two files' answers are identical: the same join, the same template, the same request |

## Left out

- Pinecone client setup and index creation (rag_sample.py:14-33, app/app.py:15-27): bootstrap code talking to the network.
- The bodies of the Claude and Pinecone calls are hosted services. `External.Remote` stands for them as each service's answer to a request. `result['matches']` is folded into the index's answer.
- Python's float grammar is the `parseFloat` parameter. Values are only carried, never computed with.
- md5, `str.encode`, `np.random.seed` and `np.random.rand` are parameters. Python strings with lone surrogates, which `encode()` rejects inside the `except` block, cannot be formed from Dafny characters, so that escaping exception is outside the model.
- `Hex.ParseHex` reads only plain strings of hex digits. Python's `int(_, 16)` also accepts surrounding whitespace, a sign, underscores and a `0x` prefix; `hexdigest()` never produces these.
- `arabic_reshaper.reshape` and `get_display`: an external bidirectional-text algorithm, kept as parameters.
- `display_hebrew` in rag_sample.py:103-106 is identical to the app/app.py copy and is modelled once, as `App.DisplayHebrew`. It is used only by the module-level example run (rag_sample.py:109-113), which is left out.
- The Gradio interface and its launch (app/app.py:89-101), and every `print` warning, with the messages of the embedding errors those prints show.
- `Embedding.Fallback` is sequential. `np.random.seed(seed)` followed by `np.random.rand(1536)` (rag_sample.py:77-78, app/app.py:53-54) changes numpy's process-wide generator state. The model treats seed-then-draw as one atomic step, `rt.rand(seed, i)`. So "equal texts give equal fallback vectors" (`Embedding.FallbackDeterministic`) holds only if no other thread, such as a concurrent Gradio handler, draws from `np.random` between the seed and the draws.
