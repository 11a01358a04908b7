# gpt-extract, modelled in Dafny

`gpt-extract.py` turns free-text documents into JSON that follows a given
schema. It does this by asking a chat backend, through a browser wrapper,
one document at a time. This project models its core and proves properties
of the model:

- **Loading the input** (`parse_input_documents`). A text file gives one
  document per line, with the line's zero-based index as id and the line, newline
  included, as text. A JSON file must be an array of objects. Its checks
  run in the order the source makes them, and the first item that cannot
  be read stops the input.
- **Cleaning the document** (`clean_document`). Runs of newlines collapse to
  one newline and runs of spaces and tabs to one space, then the ends are
  stripped. From 3000 characters on, the text is cut to its first 2500
  characters, a space and its last 500.
- **The prompt.** The cleaned document and the schema each go in a
  triple-backtick block, with the request between them.
- **The exchange** (`scrape_via_prompt`). The prompt is sent again and again
  while the backend says its reply is unusable. Before each resend the loop
  backs off 120, 240, ... seconds. The sixth ask gives up. Otherwise the
  first other reply decides the exchange:
  - a refusal gives no response;
  - the rate-limit reply sleeps an hour and aborts;
  - a reply without `}` aborts;
  - anything else is accepted.
- **The results list** (`upsert_result`). A new record replaces the first
  record with the same id, in its place, or is appended.
- **The run** (`run`):
  - the headless pause;
  - the resume cursor (`--continue-last` resumes one past the largest saved
    id);
  - the skip filter (blank texts and ids below the cursor are skipped);
  - the pacing check between documents, which as written never pauses;
  - the fenced JSON in the reply;
  - the record, the upsert and the save after every document.
- **The entry point** (`__main__`). The input is read first. Then
  `--continue-at` together with `--continue-last` is refused. Then `run`
  starts.

The chat backend is modelled as an oracle object. It holds the replies it
will give, in order, and records the prompts it was asked. Once its replies
run out, every question times out. The clock records every sleep. The
results file is the `saved` field of the results list. `json.loads` is a
function parameter.

The checks that `scrape_via_prompt` makes on a reply form `Scrape.Classify`.
The document loop (`Orchestrator.Process` and the methods proved against it)
takes the classifier as a parameter. `Orchestrator.Start` passes
`Classify`, so the entry point runs exactly the source's checks. Keeping the
classifier a parameter keeps the string matching out of the proofs about
the loop.

Files:

| file | module | models |
|---|---|---|
| `wrappers.dfy` | `Wrappers` | Option, Result, `Min`, `Repeat`, and the sequence lemmas `AppendAssoc`, `SplitAt`, `Regroup` |
| `json.dfy` | `JsonValues` | JSON values |
| `text.dfy` | `Text` | `str.isspace`, `lower`, `in`, `strip`, `split(...)[1]` |
| `backend.dfy` | `Backend` | the chat session and the clock |
| `clean.dfy` | `Clean` | `clean_document`, the prompt |
| `scrape.dfy` | `Scrape` | `scrape_via_prompt` |
| `store.dfy` | `Results` | `upsert_result`, the results list and its file |
| `loader.dfy` | `Loader` | `parse_input_documents` |
| `run.dfy` | `Orchestrator` | `run`, `__main__` |

## Model

| member | source | states |
|---|---|---|
| `Text.IndexOfFirst` | gpt-extract.py:117 | `str.find` finds the first occurrence of the needle; none means it occurs nowhere (the base of Python's `in`) |
| `Text.Strip` | gpt-extract.py:87 | `str.strip()` leaves neither leading nor trailing whitespace, and is empty exactly when the text is all whitespace |
| `Text.StripPadded` | gpt-extract.py:133 | whitespace around a text that neither starts nor ends with whitespace is exactly what `strip` removes |
| `Text.StripAround` | gpt-extract.py:87 | stripping a text whose visible ends surround a whitespace middle strips each side on its own and keeps the middle |
| `Text.SecondField` | gpt-extract.py:224 | `split(sep)[1]` raises (None) exactly when the separator is absent |
| `Text.SecondFieldHasNoSeparator` | gpt-extract.py:224 | the field `split` yields never holds the separator |
| `Text.FirstOccurrence` | gpt-extract.py:224 | when no separator starts in `x`, the first separator in `x`+sep+`y` starts right after `x` |
| `Text.SecondFieldBetween` | gpt-extract.py:224 | for `a`+sep+`b`+sep+`c` where no separator occurs in `a` or `b` and neither ends in a proper prefix of it, the second field is `b` |
| `Clean.Collapse` | gpt-extract.py:87 | `re.sub("[cls]+", rep, s)` is empty iff `s` is, never longer; its first character is `rep` when `s` starts with a class character, and otherwise `s`'s own first character |
| `Clean.CollapseShape` | gpt-extract.py:87 | after `re.sub`, every class character left is the replacement and no two stand side by side |
| `Clean.CollapseKeepsNoDouble` | gpt-extract.py:87 | collapsing spaces and tabs does not create two neighbouring newlines |
| `Clean.CollapseKeepsVisible` | gpt-extract.py:87 | collapsing whitespace runs keeps every other character, in order |
| `Clean.CollapseIdempotent` | gpt-extract.py:87 | the substitution applied twice equals applied once |
| `Clean.CollapseAppend` | gpt-extract.py:87 | `re.sub` of two pieces that no run straddles is the two substitutions joined |
| `Clean.CollapseRun` | gpt-extract.py:87 | a run on its own becomes the single replacement character |
| `Clean.CollapseReplacesRun` | gpt-extract.py:87 | a whole run between two characters outside the class becomes exactly one replacement character, in its place |
| `Clean.CollapseKeepsSpaces` | gpt-extract.py:87 | substituting whitespace runs with a whitespace character leaves only whitespace |
| `Clean.SqueezeAround` | gpt-extract.py:87 | the two substitutions treat the text on each side of a whitespace middle on their own and keep the visible ends |
| `Clean.StripKeepsVisible` | gpt-extract.py:87 | `strip` removes only whitespace |
| `Clean.CleanedShape` | gpt-extract.py:87 | the cleaned text has no whitespace at either end, no tab, no double space, no double newline |
| `Clean.CleanedKeepsVisible` | gpt-extract.py:87 | cleaning changes only whitespace: the other characters survive in order |
| `Clean.CleanedIdempotent` | gpt-extract.py:87 | cleaning a cleaned text changes nothing |
| `Clean.CleanedKeepsSeparation` | gpt-extract.py:87 | whitespace between two visible characters stays a non-empty run of whitespace, and each side is cleaned on its own |
| `Clean.CleanDocumentExcerpt` | gpt-extract.py:88-92 | below 3000 cleaned characters the text is returned as is; from 3000 on, its first 2500, a space and its last 500 (3001 characters) |
| `Clean.CleanDocumentLength` | gpt-extract.py:88-92 | the result never exceeds 3001 characters and is under 3000 iff the cleaned text is |
| `Clean.PromptCarriesDocument` | gpt-extract.py:96 | the prompt's first fenced block is the cleaned document, when the document holds no fence and does not end in a backtick |
| `Clean.FenceStartsAfter` | gpt-extract.py:224 | a text with no fence that does not end in a backtick starts no fence, not even one running past its end |
| `Backend.Chat.Ask` | gpt-extract.py:106 | `chat.ask` records the prompt and returns the next reply, or times out when none is left |
| `Scrape.Decide` | gpt-extract.py:128-144 | what a reply that is not unusable does: refusal, rate-limit hour and abort, incomplete-JSON abort, or acceptance |
| `Scrape.Expected` | gpt-extract.py:105-145 | between 1 and 6 asks; an exchange that returns was decided within the first 5 and carries the original prompt |
| `Scrape.AskUntilDecided` | gpt-extract.py:105-145 | the retry loop returns the `Expected` outcome, consumes exactly the replies it asked for, sends the prompt once per ask, and sleeps the backoffs then the rate-limit hour if any |
| `Scrape.ScrapeViaPrompt` | gpt-extract.py:95-149 | `scrape_via_prompt` with the source's checks: the same, for the prompt built from the cleaned document and the schema |
| `Scrape.ExpectedWhenDecided` | gpt-extract.py:112-144 | when reply `k` (k < 5) is the first one that is not unusable, it decides, after `k` backoffs and `k`+1 asks |
| `Scrape.ExpectedWhenUndecided` | gpt-extract.py:106-121 | with only unusable replies among the first five, the backend times out if it runs dry, else the sixth ask aborts unread |
| `Scrape.AcceptedIff` | gpt-extract.py:106-149 | a reply is returned iff it is the first one that is not unusable, comes within the first five, and passes every check |
| `Scrape.AcceptedHasBrace` | gpt-extract.py:128-144 | an accepted reply holds `}` and is neither unusable, a refusal nor the rate-limit reply |
| `Scrape.FiveUnusableAbort` | gpt-extract.py:112-121 | five unusable replies abort after sleeping 120, 240, 360, 480 and 600 seconds, whatever the sixth says |
| `Scrape.SumBackoff` | gpt-extract.py:118-120 | `n` backoffs sleep 60 n (n+1) seconds in all |
| `Scrape.SleepBound` | gpt-extract.py:117-137 | one document never sleeps more than 4800 seconds |
| `Scrape.UnusableInAnyCase` | gpt-extract.py:117 | a reply holding the unusable marker in any letter case is unusable, whatever else it says |
| `Scrape.RefusalInAnyCase` | gpt-extract.py:123-131 | a reply that is not unusable and holds the refusal text in any case is a refusal |
| `Scrape.RateLimitPadded` | gpt-extract.py:133 | the rate-limit reply is recognised with whitespace around it |
| `Results.FindId` | gpt-extract.py:154-156 | the loop of `upsert_result` stops at the first record with the id, or finds none |
| `Results.Lookup` | gpt-extract.py:152-161 | looking an id up finds a record with it exactly when the list holds one |
| `Results.Ids` | gpt-extract.py:187 | `already_scraped` holds exactly the ids of the records |
| `Results.ResultStore.constructor` | gpt-extract.py:182-185 | the run starts from the saved results |
| `Results.ResultStore.Upsert` | gpt-extract.py:152-161 | the in-place loop leaves the list equal to `Upserted` and the file untouched |
| `Results.ResultStore.Save` | gpt-extract.py:239-241 | the file afterwards holds the whole list |
| `Results.UpsertLookup` | gpt-extract.py:152-161 | after an upsert its id finds the new record, and every other id finds what it found before |
| `Results.UpsertReplaces` | gpt-extract.py:154-159 | an existing id is overwritten in place: same length, only that record changes |
| `Results.UpsertAppends` | gpt-extract.py:160-161 | a new id goes at the end |
| `Results.UpsertIds` | gpt-extract.py:152-161 | the ids afterwards are those before plus the new one |
| `Results.UpsertKeepsUnique` | gpt-extract.py:152-161 | an upsert keeps ids unique |
| `Results.UpsertIdempotent` | gpt-extract.py:152-161 | upserting a record twice equals once |
| `Results.UpsertLaterWins` | gpt-extract.py:152-161 | of two upserts with one id the later wins, in the place the first took |
| `Loader.LinesConcat` | gpt-extract.py:249 | joining the lines `readlines` yields gives back the file |
| `Loader.LinesShape` | gpt-extract.py:249 | each line is non-empty, holds a newline only at its end, and every line but the last ends in one |
| `Loader.ReadTxtDocuments` | gpt-extract.py:248-253 | line `i` becomes document `i`, its text the line itself |
| `Loader.TxtDocumentsCoverFile` | gpt-extract.py:248-253 | the texts of the text documents, joined, are the file |
| `Loader.Precheck` | gpt-extract.py:256-262 | the checks pass exactly for a parsed, non-empty array whose first item is an object holding `--keydoc`, which must be given; unparsable input fails first |
| `Loader.DocumentAt` | gpt-extract.py:264-268 | an item gives a document exactly when it is an object with `--keydoc` and, if `--keyid` is given, an integer under it; the id is that value, or the index when none is given; a missing id key is a KeyError on it |
| `Loader.ReadJsonDocuments` | gpt-extract.py:254-268 | the checks fail as `Precheck` says; otherwise item `i` is document `i`, or the first unreadable item's error stops the input |
| `Loader.ParseInputDocuments` | gpt-extract.py:245-269 | no input type gives no documents; `txt` always succeeds; `json` fails as `Precheck` says, else gives one document per item or the first unreadable item's error |
| `Orchestrator.MaxId` | gpt-extract.py:191 | the largest saved id |
| `Orchestrator.ResumeCursor` | gpt-extract.py:187-192 | `--continue-last` resumes one past the largest saved id and fails with none saved; otherwise `--continue-at` as given |
| `Orchestrator.GateOf` | gpt-extract.py:199-206 | a document is sent only when its text is truthy and its id is not below the cursor |
| `Orchestrator.SkipIff` | gpt-extract.py:199-206 | a text document is skipped iff it is empty or below the cursor, and sent iff neither |
| `Orchestrator.ParseData` | gpt-extract.py:223-228 | a reply without a fence has no data |
| `Orchestrator.FencedReply` | gpt-extract.py:223-225 | for a reply whose text before each of its first two fences holds no fence and does not end in a backtick, the data is what `json.loads` makes of the text between those fences |
| `Orchestrator.RecordOf` | gpt-extract.py:230-236 | the record holds the document's id, text and prompt; a response exactly when the reply was accepted; data only then |
| `Orchestrator.PaceStep` | gpt-extract.py:208-211 | as written the flag after a send is the flag before, and a true flag takes no pause; with the corrected rule the pause is taken unless first and the flag is cleared |
| `Orchestrator.Sent` | gpt-extract.py:207-237 | sending a document upserts its id, unless the exchange raises, which changes no record; as written the pacing flag keeps its value |
| `Orchestrator.Step` | gpt-extract.py:196-237 | a skipped document changes nothing; a stop never completes the run; a document that goes through upserts its own id and, as written, leaves the pacing flag as it was |
| `Orchestrator.SendDocument` | gpt-extract.py:208-241 | the pacing check as written, exchange, record, upsert and save leave the state `Sent` describes under the as-written rule |
| `Orchestrator.HandleDocument` | gpt-extract.py:196-241 | one pass of the loop body leaves the state `Step` describes |
| `Orchestrator.ProcessDocuments` | gpt-extract.py:194-241 | the `for` loop leaves the state `Process` describes under the as-written pacing: records, replies used, prompts sent, sleeps, file |
| `Orchestrator.Run` | gpt-extract.py:164-241 | `run`: the headless pause, then a cursor failure that changes nothing else, or the loop |
| `Orchestrator.Start` | gpt-extract.py:272-289 | a bad input, or `--continue-last` with any `--continue-at`, stops the run before anything is sent, slept or saved; a well-formed JSON or any text input is read; otherwise `run` over the documents read |
| `Orchestrator.HandledSelected` | gpt-extract.py:196-237 | the records upserted are those of the documents the filter lets through, in order: all when the run completes, a prefix otherwise |
| `Orchestrator.StepIds` | gpt-extract.py:230-237 | one document adds its own id to the results or nothing, and keeps ids unique |
| `Orchestrator.ProcessIds` | gpt-extract.py:230-237 | the ids afterwards are those before plus the ids of the documents handled |
| `Orchestrator.ProcessKeepsUnique` | gpt-extract.py:237 | the run keeps ids in the results unique |
| `Orchestrator.NoPacingInExchange` | gpt-extract.py:118-136 | no sleep of an exchange lasts 60 seconds |
| `Orchestrator.StepNeverPaces` | gpt-extract.py:208-211 | as written, a step from a true flag takes no 60-second pause and leaves the flag true |
| `Orchestrator.ProcessNeverPaces` | gpt-extract.py:194-211 | as written, the loop over any documents never sleeps 60 seconds |
| `Orchestrator.StepPacing` | gpt-extract.py:208-211 | with the corrected rule, a document sent after another pauses once, any other document not at all |
| `Orchestrator.PacingCount` | gpt-extract.py:194-211 | with the corrected rule, a completed run pauses 60 seconds once before every document sent but the first |
| `Orchestrator.GateAsWritten` | gpt-extract.py:204-205 | as written: a document is sent only when no `--continue-at` was given |
| `Orchestrator.ContinueAtCrashes` | gpt-extract.py:58-61 | as written, any `--continue-at` stops the run with TypeError at the first non-blank text; with an integer cursor, that document is sent iff its id is at or past it |
| `Orchestrator.PacingAsWritten` | gpt-extract.py:208-211 | as written, the flag after the step is the flag before |
| `Orchestrator.ResumeExample` | gpt-extract.py:187-205 | saved ids 0, 2 and 5 resume at 6: document 3 is skipped, document 6 sent |
| `Orchestrator.NewlineLineSent` | gpt-extract.py:199-201 | a text line holding only its newline is not blank, and is sent |

## Left out

- The browser and its session are not modelled. This covers `ChatGPT(...)`, the login prompt, `chat.page.reload()` at line 177, and every `print`. The backend is the reply oracle in `Backend.Chat`.
- File I/O is not modelled.
  - The input file is given as its text. `json.load` of it is given as its result (None where it raises).
  - The saved results are the store's initial list. The output file is the store's `saved` field.
  - `json.dumps` formatting and the schema file are not modelled. The schema is given as the text the f-string renders it to.
  - Universal-newline translation when reading in text mode happens before the model sees the text.
- `json.loads` of the fenced field is a function parameter (`parse`), because its grammar is not part of the program.
- JSON numbers are integers only. Floats are left out.
- Ids are integers. A `--keyid` value that is not a JSON integer stops the input with `IdNotInteger`. Python would carry a string or float id on into the loop.
- A saved results file whose records lack `id`, `text`, `prompt`, `response` or `data` is not modelled.
- `str.lower` is modelled on ASCII letters only. The markers it is compared with are ASCII.
- The `except` branch at lines 217-221 re-raises before anything else runs. Everything after the `raise` is unreachable and is not modelled.
- `current_prompt` (line 104) never changes from the prompt, so the model sends the prompt itself.
- `Orchestrator.Run` and the methods below it are proved for any classifier. Only `Orchestrator.Start` and `Scrape.ScrapeViaPrompt` fix it to `Scrape.Classify`.
- `Orchestrator.Start` reads `--continue-at` as an integer, as the corrected form in the findings does. The `assert` at line 281 tests the truthiness of the argument's text, and the text of any integer is non-empty, so every cursor given together with `--continue-last` is refused, 0 included. An empty `--continue-at ""`, which Python lets through, has no integer reading and is not modelled.
- `Orchestrator.Start`: its contract does not restate the loader's. It relates the run to whatever `ParseInputDocuments` returned, and the loader's own contract says what that is.
- `Orchestrator.Process`, `Orchestrator.Run` and the methods below them follow the pacing as written (`PacingRule.AsWritten`), so the run never pauses between documents. The corrected pacing (`PacingRule.Corrected`) is stated only of the functions `Orchestrator.Step` and `Orchestrator.Process`; no method runs it.
- `Orchestrator.StepPacing`, `Orchestrator.PacingCount`: they state the pauses of the corrected pacing, not of the source, which never pauses (`Orchestrator.ProcessNeverPaces`).
- `Orchestrator.HandledSelected`, `Orchestrator.PacingCount`: on a run that raises, they state only that a prefix of the selected documents was handled. The exact sleeps are not stated there. They are in `Orchestrator.Process`, which `Orchestrator.Run` is proved against.

## Edge cases of the source

- A cleaned text of exactly 3000 characters is cut too, because the test at line 88 is a strict less-than. Any cut text is 2500 + 1 + 500 = 3001 characters.
- Five unusable replies always end the document. The sixth ask happens, but its reply is never looked at, so five unusable replies followed by a good one abort.
- A reply with a single fence yields everything after it as the JSON field.
- A text-file line holding only `"\n"` is not blank to `not page_text`, so it is sent.
- The 60-second pause at lines 208-211 never happens, because the flag it tests is never cleared (see the findings).

## Findings

| source | as written | input that shows it | evidently intended | confidence | as-written member | corrected member |
|---|---|---|---|---|---|---|
| gpt-extract.py:58-61 | `--continue-at` has no `type=int`, so `continue_at` is a string. At line 205, `pk < continue_at` compares the document's id with it; for an integer id (every text-file document, and every JSON document without `--keyid` or with an integer one) this raises TypeError. A string id from `--keyid` would be compared as text instead; the model has integer ids only. | `--continue-at 3` with a text file holding one non-blank line: the run stops at that line, before anything is sent | the cursor is an integer; documents with a smaller id are skipped and the others sent | not executed | `Orchestrator.GateAsWritten`, `Orchestrator.ContinueAtCrashes` | `Orchestrator.GateOf`, `Orchestrator.SkipIff` |
| gpt-extract.py:195-211 | `first_scrape = False` sits inside `if not first_scrape:`. The flag starts True and never changes, so the 60 s pause never happens. | any input with two non-blank documents: both are sent back to back | clear the flag after the first document sent, so the loop pauses 60 s before every later one | not executed | `Orchestrator.PacingAsWritten`, `Orchestrator.ProcessNeverPaces` | `Orchestrator.PaceStep`, `Orchestrator.StepPacing`, `Orchestrator.PacingCount` |
