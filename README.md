# Investment report assistant: chat service core in Dafny

This project models the two pieces of original logic in `ChatService`
(`backend/services/chat_service.py`) of an asset-management demo that answers
questions about a client's portfolio and writes an AI-generated report.

1. **The report section splitter** of `generate_analysis`. The language model's
   answer is cut on `"###"` and blank chunks are skipped. Each chunk's first line is
   stripped and lowercased to give its title, and the remaining lines, joined and
   stripped, give its body. The body is stored under the first entry of
   `section_markers`, in insertion order, whose marker is a substring of the title.
   Finally, every one of the seven required sections that is missing or empty
   receives a placeholder. A failed model call yields a fixed fallback report.
2. **The conversation state** of `ChatService`: the selected client and a history
   of question/answer messages. `set_current_client` switches the client and
   forgets the history. `process_message` refuses to answer without a client. It
   sorts the retrieved context into financial and general text, asks the model,
   and records the exchange, keeping the last ten messages. Any exception gives a
   fixed apology and leaves the history alone.

Files:

- `Wrappers.dfy`: `Option` and `Outcome`. An `Outcome` is a value, or the text of
  the exception raised instead.
- `Messages.dfy`: the system, human and AI chat messages, and the language model
  as an opaque function from the messages sent to its reply or exception.
- `Text.dfy`: explicit definitions of the Python string operations used:
  `strip`, `lower`, `in`, `split` and `join`. `IndexOf`, the search for the
  leftmost occurrence of a separator, is only the inner step of `split`; the
  service makes no such call of its own.
- `Analysis.dfy`: the splitter. `ParseSections` is the reference definition.
  `ParseResponse` is the loop-by-loop method, proved equal to it.
  `GenerateAnalysis` covers the model call and the fallback.
- `Chat.dfy`: the `ChatService` class with its two fields. `Respond` is the
  reference definition of one call of `process_message`. `PartitionContext` is the
  context loop.

The language model and the vector store's similarity search are parameters of
each call. `Index` is `VectorStore.search(query, k)`, giving its hits or the
exception it raised. `Model` is the chat model, giving its reply or the exception.
`str.strip()` uses the ASCII whitespace that Python's `str.isspace()` accepts:
tab, line feed, vertical tab, form feed, carriage return, 0x1c-0x1f and space.
`str.lower()` lowercases only `A`-`Z`.

The reassignment of `content` at `backend/services/chat_service.py:201` happens
after `content.split('###')` at line 192 has been evaluated, so it has no effect
on parsing. The model keeps the two names apart.

## Model

| member | source | states |
|---|---|---|
| `Text.TrimStartSpec` | backend/services/chat_service.py:195 | `lstrip` removes exactly the leading whitespace and leaves a result that starts with a non-space |
| `Text.TrimEndSpec` | backend/services/chat_service.py:195 | `rstrip` removes exactly the trailing whitespace and leaves a result that ends with a non-space |
| `Text.StripSpec` | backend/services/chat_service.py:195-201 | `strip()` is the infix left after whitespace at both ends is removed; it is empty exactly when the text is all whitespace |
| `Text.LowerSpec` | backend/services/chat_service.py:200 | `lower()` keeps the length, maps each character on its own, and leaves no upper-case letter |
| `Text.IndexOfSpec` | backend/services/chat_service.py:192 | the search for a separator fails exactly when the text does not contain it, and otherwise finds the leftmost occurrence |
| `Text.SplitSpec` | backend/services/chat_service.py:192 | no part of `split(sep)` contains the separator; text without it splits into itself alone |
| `Text.JoinSplit` | backend/services/chat_service.py:199-201 | joining the parts of `split(sep)` with `sep` gives the original text back |
| `Text.SplitJoin` | backend/services/chat_service.py:199-201 | for a one-character separator, splitting the join of parts that do not contain it gives the parts back |
| `Text.RestAfterFirst` | backend/services/chat_service.py:199-201 | the first line is the text before the first line break, and the other lines joined back are the text after it |
| `Text.JoinContainsPart` | backend/services/chat_service.py:97-100 | every part occurs in `sep.join(parts)` |
| `Analysis.MarkerFrom` | backend/services/chat_service.py:204-207 | the marker found lies in the range searched and occurs in the title |
| `Analysis.MatchMarkerIsFirst` | backend/services/chat_service.py:181-189 | a title matches the first marker, in insertion order, that it contains, and no marker exactly when it contains none |
| `Analysis.SectionKey` | backend/services/chat_service.py:181-189 | a title that contains no marker has no section; otherwise it is stored under the report key of the first marker, in insertion order, that it contains, which is always one of the required keys |
| `Analysis.TitleAndBody` | backend/services/chat_service.py:199-201 | the title is the lowercased, stripped text before the stripped chunk's first line break; the body is the stripped text after it, empty when there is no line break |
| `Analysis.Entry` | backend/services/chat_service.py:194-207 | a chunk stores something exactly when it is not blank and its title has a section, and then it stores its body under that section's key |
| `Analysis.EntriesStoreBodies` | backend/services/chat_service.py:194-207 | in the first loop, a chunk stores under a key exactly when it belongs to that section, and it then stores its own body |
| `Analysis.StoredAtMostNonBlank` | backend/services/chat_service.py:194-196 | no more chunks store a body than there are non-blank chunks |
| `Analysis.CollectKeys` | backend/services/chat_service.py:204-207 | the first loop stores only required keys, and at most one key per storing chunk |
| `Analysis.CollectLastWins` | backend/services/chat_service.py:204-207 | a key is present exactly when some chunk stores under it, and then holds the body of the last such chunk; other chunks leave it alone |
| `Analysis.FillSpec` | backend/services/chat_service.py:215-217 | filling adds exactly the required keys, leaves the rest alone, and gives a missing or empty section the placeholder and a non-empty one its found text |
| `Analysis.ParseSectionsShape` | backend/services/chat_service.py:176-217 | the parsed report has exactly the seven report keys and no empty value |
| `Analysis.SevenSections` | backend/services/chat_service.py:210-213 | the required section names are seven distinct keys |
| `Analysis.ParseSectionsAbsent` | backend/services/chat_service.py:192-217 | a section no `"###"` chunk belongs to holds the placeholder |
| `Analysis.ParseSectionsLast` | backend/services/chat_service.py:192-217 | a section holds the body of the last chunk belonging to it, or the placeholder when that body is empty; earlier chunks are overwritten |
| `Analysis.RealSectionsBound` | backend/services/chat_service.py:192-217 | at most as many sections get real content as there are non-blank `"###"` chunks |
| `Analysis.NoSeparatorAtMostOneSection` | backend/services/chat_service.py:192 | an answer without `"###"` gives real content to at most one section |
| `Analysis.FallbackShape` | backend/services/chat_service.py:222-232 | the fallback report has the same seven keys, none empty; only the executive summary depends on the error, and it holds the error text whole after a fixed prefix |
| `Analysis.AnalysisShape` | backend/services/chat_service.py:170-232 | whatever the model returns or raises, the report has the seven keys and no empty section |
| `Analysis.FindSection` | backend/services/chat_service.py:204-207 | the marker loop stops at the first marker in the title and returns its section, or none |
| `Analysis.FillMissing` | backend/services/chat_service.py:215-217 | the required-sections loop computes the filled report |
| `Analysis.ParseResponse` | backend/services/chat_service.py:176-220 | the two parsing loops compute exactly `ParseSections` of the answer |
| `Analysis.GenerateAnalysis` | backend/services/chat_service.py:145-232 | the system and human messages are sent to the model, and the parsed report, or the fallback on an exception, is returned, with seven non-empty sections |
| `Chat.ClientName` | backend/services/chat_service.py:92 | the client's name is available exactly when the client record has a `clientInfo` entry holding a `name` |
| `Chat.Window` | backend/services/chat_service.py:115-117 | the kept history is the last `min(10, n)` entries |
| `Chat.WindowKeepsShape` | backend/services/chat_service.py:112-117 | appending a question and answer to a valid history and keeping the last ten entries gives a history that is even, at most ten long, alternates human/AI, and ends with that exchange |
| `Chat.ContextPartition` | backend/services/chat_service.py:81-88 | every retrieved hit goes to exactly one of the financial and general contexts |
| `Chat.ContextOrder` | backend/services/chat_service.py:84-88 | each context keeps the hits' relative order |
| `Chat.ContextHolds` | backend/services/chat_service.py:84-88 | a hit's text is in the context its `type` metadata selects |
| `Chat.PartitionContext` | backend/services/chat_service.py:81-88 | the loop appends each hit's text to the financial list when `metadata.get('type') == 'financial'` and to the general list otherwise |
| `Chat.PromptCarriesContext` | backend/services/chat_service.py:91-101 | the question, and the text of every retrieved hit joined with single spaces, occur in the message sent to the model |
| `Chat.Respond` | backend/services/chat_service.py:67-123 | without a client the reply is "Please select a client first." and the history is unchanged; the history is either unchanged or the window of the old one plus the new exchange; a valid history stays valid |
| `Chat.RespondOutcomes` | backend/services/chat_service.py:69-123 | a failing search, a missing client name or a failing model call give the apology and leave the history unchanged; a reply is returned and recorded in the last ten entries |
| `Chat.Record` | backend/services/chat_service.py:104-123 | a model answer is the reply and is recorded, with the question, in the last ten history entries, keeping a valid history valid; an exception gives the apology and leaves the history alone |
| `Chat.RespondAsWritten` | backend/services/chat_service.py:69-78 | as written, the history never changes; without a client the reply is "Please select a client first.", and with one it is always the apology |
| `Chat.AsWrittenAlwaysApologises` | backend/services/chat_service.py:74-78 | for every selected client with a name, every search that succeeds and every model that answers, the code as written apologises and records nothing, while the corrected call replies with the model's answer |
| `Chat.AsWrittenNeverAnswers` | backend/services/chat_service.py:74-78 | for the client Ann, a search with no hits and a model answering "Hello", the code as written apologises while the corrected call answers "Hello" and records the exchange |
| `Chat.ChatService.constructor` | backend/services/chat_service.py:45-46 | a new service has no client and an empty history |
| `Chat.ChatService.SetCurrentClient` | backend/services/chat_service.py:62-65 | the client is set and the history emptied |
| `Chat.ChatService.ProcessMessage` | backend/services/chat_service.py:67-123 | the reply and the new history are those of `Respond` on the old state; the client is unchanged and the history invariant is kept |
| `Chat.ChatService.ProcessMessageAsWritten` | backend/services/chat_service.py:67-123 | as written, the history never changes and the reply is that of `RespondAsWritten` |

## Findings

| source | as written | input that shows it | evidently intended | confidence | as-written member | corrected member |
|---|---|---|---|---|---|---|
| backend/services/chat_service.py:74-78 | `self.vector_store.search(query=message, client_id=..., k=3)` passes a keyword that `VectorStore.search(self, query, k=3)` (backend/database/vector_store.py:82) does not accept, so the call raises `TypeError`, which is caught at lines 121-123 | any message once a client is selected, e.g. a client `{"clientInfo": {"id": "C1", "name": "Ann"}}` and the question "How am I doing?" | search with `query=message, k=3`, then build the prompt, ask the model, and record the exchange | high (not executed) | `Chat.AsWrittenAlwaysApologises` | `Chat.Respond` |

`Chat.ChatService.ProcessMessage` uses the corrected call. `Chat.ChatService.ProcessMessageAsWritten` and `Chat.RespondAsWritten` keep the behaviour as written: the no-client guard, then always the apology with the history unchanged.

## Left out

- Language model calls (`ChatOpenAI` construction, `invoke`/`ainvoke`, `ChatPromptTemplate`, the unused `self.chain`): the model is a total function of the messages sent, so nondeterminism, async execution and token limits are not modelled. A failing `ChatOpenAI` construction in `__init__` is not modelled. The one at line 148 of `generate_analysis` is covered by the model's `Raised` outcome, since both lead to the fallback.
- `get_stock_recommendation`: a network call through `MarketService` and `datetime.now()`.
- `VectorStore` (backend/database/vector_store.py): FAISS, OpenAI embeddings and disk persistence. Its search is the opaque `Index` parameter, and its `k` limit is not enforced on the hits.
- The client record is reduced to its `clientInfo` dictionary, with string values, and a count of its other keys; only emptiness, `clientInfo` and `name` are read. Metadata values are strings, and the search score (a float) is kept only as an unused `real`.
- `response.content` is taken to be a string, and exception texts to be `str(e)`.
- The order of the report's keys: the Python dictionary lists the sections found, in the order first stored, and then the placeholders in the order of `required_sections`. The report is a `map`, which has no order.
- Unicode semantics of `str.strip()` and `str.lower()`: ASCII approximation only.
- Debug `print` calls and the Streamlit frontend, report rendering, market data, Pydantic schema, configuration and packaging files.
