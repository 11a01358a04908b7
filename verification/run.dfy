/** `run` and the `__main__` block: where to resume, which documents to send,
    and what each exchange leaves in the results list. */
module Orchestrator {
  import opened Wrappers
  import opened Text
  import opened JsonValues
  import opened Clean
  import opened Backend
  import opened Scrape
  import opened Results
  import opened Loader

  /** Seconds slept instead of the interactive login when headless. */
  const HeadlessSleep := 5
  /** Seconds slept between two documents sent to the backend. */
  const PacingSleep := 60

  /** Why the run stops with an exception other than the scrape's. */
  datatype RunError =
    | BadInput(error: LoadError)   // parse_input_documents fails
    | BothResumeOptions            // --continue-at together with --continue-last
    | NoResultsToResume            // max() of no ids
    | TextHasNoLength(id: int)     // len() of a number or boolean text
    | TextNotString(id: int)       // clean_document of a list or object text
    | IdComparedWithText(id: int)  // an integer id compared with a textual cursor

  /** How `run` ends: it returns, the scrape raises, or another exception. */
  datatype RunOutcome = Completed | ScrapeRaised(reason: AbortReason) | Crashed(error: RunError)

  // ---------------------------------------------------------------------
  // Resuming

  /** The largest id in the list. */
  function MaxId(rs: seq<Record>): (m: int)
    requires rs != []
    ensures m in Ids(rs)
    ensures forall id :: id in Ids(rs) ==> id <= m
  {
    if |rs| == 1 then rs[0].id
    else
      var rest := MaxId(rs[1..]);
      assert Ids(rs) == {rs[0].id} + Ids(rs[1..]);
      if rs[0].id > rest then rs[0].id else rest
  }

  /** `continue_at` as the loop sees it: with `--continue-last`, one past the
      largest id already in the results (there must be one); otherwise
      `--continue-at`, if given. */
  function ResumeCursor(continueAt: Option<int>, continueLast: bool, loaded: seq<Record>): (r: Result<Option<int>, RunError>)
    ensures continueLast && loaded == [] ==> r == Err(NoResultsToResume)
    ensures continueLast && loaded != [] ==>
      r.Ok? && r.value.Some? && r.value.value - 1 in Ids(loaded)
      && forall id :: id in Ids(loaded) ==> id < r.value.value
    ensures !continueLast ==> r == Ok(continueAt)
  {
    if !continueLast then Ok(continueAt)
    else if loaded == [] then Err(NoResultsToResume)
    else Ok(Some(MaxId(loaded) + 1))
  }

  // ---------------------------------------------------------------------
  // Choosing the documents

  /** Python truthiness of a JSON value: `not page_text`. */
  predicate Truthy(j: Json) {
    match j
    case JNull => false
    case JBool(b) => b
    case JNumber(n) => n != 0
    case JString(s) => s != []
    case JArray(items) => items != []
    case JObject(fields) => fields != map[]
  }

  /** What the loop does with a document before scraping it. */
  datatype Gate = Skip | Send | Stop(error: RunError)

  /** Blank texts are skipped first; `len` of a number or boolean raises;
      then ids below the cursor are skipped. */
  function GateOf(d: Document, cursor: Option<int>): (g: Gate)
    ensures g == Send ==> Truthy(d.text) && (cursor.None? || d.id >= cursor.value)
  {
    if !Truthy(d.text) then Skip
    else if d.text.JNumber? || d.text.JBool? then Stop(TextHasNoLength(d.id))
    else if cursor.Some? && d.id < cursor.value then Skip
    else Send
  }

  // ---------------------------------------------------------------------
  // One exchange's record

  /** `json.loads(response.split("```")[1])`, None where it raises: no
      fence in the reply, or `parse` (json.loads) rejects the field. */
  function ParseData(reply: string, parse: string -> Option<Json>): (data: Option<Json>)
    ensures !Contains(reply, Fence) ==> data.None?
  {
    match SecondField(reply, Fence)
    case None => None
    case Some(field) => parse(field)
  }

  /** The result dict for a document whose exchange returned. A refusal has
      no response, so its data is None too. */
  function RecordOf(id: int, text: string, outcome: Outcome, parse: string -> Option<Json>): (r: Record)
    requires !outcome.Aborted?
    ensures r.id == id && r.text == text && r.prompt == outcome.prompt
    ensures r.response.Some? <==> outcome.Accepted?
    ensures r.data.Some? ==> outcome.Accepted?
  {
    match outcome
    case Accepted(prompt, reply) => Record(id, text, prompt, Some(reply), ParseData(reply, parse))
    case Refused(prompt) => Record(id, text, prompt, None, None)
  }

  // ---------------------------------------------------------------------
  // The document loop

  /** Before every document sent but the first, the loop is meant to sleep. */
  function Pacing(first: bool): (sleeps: seq<nat>) {
    if first then [] else [PacingSleep]
  }

  /** Which pacing the loop follows: `first_scrape` as the source handles
      it, or the flag cleared after each send, as evidently intended. */
  datatype PacingRule = AsWritten | Corrected

  /** The sleeps before a send and the flag after it, under `rule`. */
  function PaceStep(rule: PacingRule, first: bool): (r: (seq<nat>, bool))
    ensures rule == AsWritten ==> r.1 == first && (first ==> r.0 == [])
    ensures rule == Corrected ==> r.0 == Pacing(first) && !r.1
  {
    match rule
    case AsWritten => PacingAsWritten(first)
    case Corrected => (Pacing(first), false)
  }

  /** What handling one document does: whether the loop stops (and how),
      and the results, replies, prompts, sleeps and upserted ids after it;
      `first` is the flag for the next document. */
  datatype StepResult = StepResult(
    stop: Option<RunOutcome>,
    entries: seq<Record>,
    pending: seq<string>,
    sent: seq<string>,
    sleeps: seq<nat>,
    handled: seq<int>,
    first: bool)

  /** Sending the text `text` of document `id`: the pacing step, the
      exchange, then the record upserted, unless the exchange raised. */
  function Sent(id: int, text: string, first: bool, rule: PacingRule, schema: string, classify: string -> Verdict,
                parse: string -> Option<Json>, entries: seq<Record>, pending: seq<string>): (s: StepResult)
    ensures s.stop.None? ==> s.handled == [id] && s.first == (rule == AsWritten && first)
    ensures s.stop.Some? ==> s.handled == [] && s.entries == entries && s.first == first
  {
    var (pause, next) := PaceStep(rule, first);
    var prompt := Prompt(text, schema);
    var a := Expected(prompt, pending, classify);
    var left := pending[Min(a.asks, |pending|)..];
    var sent := Repeat(prompt, a.asks);
    if a.outcome.Aborted? then
      StepResult(Some(ScrapeRaised(a.outcome.reason)), entries, left, sent, pause + a.sleeps, [], first)
    else
      StepResult(None, Upserted(entries, RecordOf(id, text, a.outcome, parse)), left, sent,
                 pause + a.sleeps, [id], next)
  }

  /** One pass of the loop body for document `d`. */
  function Step(d: Document, cursor: Option<int>, first: bool, rule: PacingRule, schema: string, classify: string -> Verdict,
                parse: string -> Option<Json>, entries: seq<Record>, pending: seq<string>): (s: StepResult)
    ensures s.stop.Some? ==> !s.stop.value.Completed? && s.handled == []
    ensures s.stop.None? && GateOf(d, cursor) == Send ==>
      s.handled == [d.id] && s.first == (rule == AsWritten && first)
    ensures s.stop.None? && GateOf(d, cursor) != Send ==>
      s == StepResult(None, entries, pending, [], [], [], first)
    ensures s.handled == [] ==> s.entries == entries
  {
    match GateOf(d, cursor)
    case Skip => StepResult(None, entries, pending, [], [], [], first)
    case Stop(e) => StepResult(Some(Crashed(e)), entries, pending, [], [], [], first)
    case Send =>
      if !d.text.JString? then
        StepResult(Some(Crashed(TextNotString(d.id))), entries, pending, [], PaceStep(rule, first).0, [], first)
      else Sent(d.id, d.text.s, first, rule, schema, classify, parse, entries, pending)
  }

  /** What the loop has done and where it stands. */
  datatype Progress = Progress(
    outcome: RunOutcome,
    entries: seq<Record>,   // the results list
    pending: seq<string>,   // the backend replies not yet consumed
    sent: seq<string>,      // prompts sent, in order
    sleeps: seq<nat>,       // durations slept, in order
    handled: seq<int>)      // ids of the documents whose record was upserted

  /** The loop of `run` over `docs`, from the results `entries` and the
      backend's `pending` replies; `first` says no document was sent yet.
      `classify` stands for the checks `scrape_via_prompt` makes on a reply
      (Classify, which `Start` passes); keeping it a parameter keeps the
      string matching out of the reasoning about the loop. */
  function Process(docs: seq<Document>, cursor: Option<int>, first: bool, rule: PacingRule, schema: string, classify: string -> Verdict,
                   parse: string -> Option<Json>, entries: seq<Record>, pending: seq<string>): Progress
    decreases |docs|
  {
    if docs == [] then Progress(Completed, entries, pending, [], [], [])
    else
      var s := Step(docs[0], cursor, first, rule, schema, classify, parse, entries, pending);
      if s.stop.Some? then Progress(s.stop.value, s.entries, s.pending, s.sent, s.sleeps, s.handled)
      else
        var rest := Process(docs[1..], cursor, s.first, rule, schema, classify, parse, s.entries, s.pending);
        Progress(rest.outcome, rest.entries, rest.pending, s.sent + rest.sent, s.sleeps + rest.sleeps,
                 s.handled + rest.handled)
  }

  /** Sending one document's text: the pacing check as the source has it,
      the exchange, the record, the upsert and the save. */
  method SendDocument(chat: Chat, clock: Clock, store: ResultStore, id: int, text: string,
                      first: bool, schema: string, classify: string -> Verdict, parse: string -> Option<Json>)
    returns (stop: Option<RunOutcome>, next: bool)
    modifies chat, clock, store
    ensures var s := Sent(id, text, first, AsWritten, schema, classify, parse, old(store.entries), old(chat.pending));
      stop == s.stop && next == s.first && store.entries == s.entries && chat.pending == s.pending
      && chat.sent == old(chat.sent) + s.sent && clock.slept == old(clock.slept) + s.sleeps
      && store.saved == if s.handled == [] then old(store.saved) else store.entries
  {
    ghost var slept0 := clock.slept;
    next := first;
    if !first {
      clock.Sleep(PacingSleep);
      next := false;
    }
    assert clock.slept == slept0 + PaceStep(AsWritten, first).0;
    ghost var a := Expected(Prompt(text, schema), chat.pending, classify);
    var scraped := AskUntilDecided(chat, clock, Prompt(text, schema), classify);
    AppendAssoc(slept0, PaceStep(AsWritten, first).0, a.sleeps);
    if scraped.Aborted? {
      return Some(ScrapeRaised(scraped.reason)), first;
    }
    var record := RecordOf(id, text, scraped, parse);
    store.Upsert(record);
    store.Save();
    return None, next;
  }

  /** The loop body of `run` for one document: the blank and cursor checks,
      then, for a document to send, its exchange. */
  method HandleDocument(chat: Chat, clock: Clock, store: ResultStore, d: Document, cursor: Option<int>,
                        first: bool, schema: string, classify: string -> Verdict, parse: string -> Option<Json>)
    returns (stop: Option<RunOutcome>, next: bool)
    modifies chat, clock, store
    ensures var s := Step(d, cursor, first, AsWritten, schema, classify, parse, old(store.entries), old(chat.pending));
      stop == s.stop && next == s.first && store.entries == s.entries && chat.pending == s.pending
      && chat.sent == old(chat.sent) + s.sent && clock.slept == old(clock.slept) + s.sleeps
      && store.saved == if s.handled == [] then old(store.saved) else store.entries
  {
    var gate := GateOf(d, cursor);
    if gate == Skip {
      return None, first;
    }
    if gate.Stop? {
      return Some(Crashed(gate.error)), first;
    }
    if !d.text.JString? {
      if !first {
        clock.Sleep(PacingSleep);
      }
      return Some(Crashed(TextNotString(d.id))), first;
    }
    stop, next := SendDocument(chat, clock, store, d.id, d.text.s, first, schema, classify, parse);
  }

  /** The `for` loop of `run` over the documents, from the first one. */
  method ProcessDocuments(chat: Chat, clock: Clock, store: ResultStore, docs: seq<Document>, cursor: Option<int>,
                          schema: string, classify: string -> Verdict, parse: string -> Option<Json>)
    returns (outcome: RunOutcome)
    modifies chat, clock, store
    ensures var p := Process(docs, cursor, true, AsWritten, schema, classify, parse, old(store.entries), old(chat.pending));
      outcome == p.outcome && store.entries == p.entries && chat.pending == p.pending
      && chat.sent == old(chat.sent) + p.sent && clock.slept == old(clock.slept) + p.sleeps
      && store.saved == if p.handled == [] then old(store.saved) else p.entries
  {
    ghost var total := Process(docs, cursor, true, AsWritten, schema, classify, parse, store.entries, chat.pending);
    ghost var sent: seq<string> := [];
    ghost var slept: seq<nat> := [];
    ghost var handled: seq<int> := [];
    var first := true;
    for i := 0 to |docs|
      invariant var p := Process(docs[i..], cursor, first, AsWritten, schema, classify, parse, store.entries, chat.pending);
        total.outcome == p.outcome && total.entries == p.entries && total.pending == p.pending
        && total.sent == sent + p.sent && total.sleeps == slept + p.sleeps && total.handled == handled + p.handled
      invariant chat.sent == old(chat.sent) + sent
      invariant clock.slept == old(clock.slept) + slept
      invariant store.saved == if handled == [] then old(store.saved) else store.entries
    {
      ghost var s := Step(docs[i], cursor, first, AsWritten, schema, classify, parse, store.entries, chat.pending);
      ghost var rest := Process(docs[i + 1..], cursor, s.first, AsWritten, schema, classify, parse, s.entries, s.pending);
      assert docs[i..][1..] == docs[i + 1..];
      var stop, next := HandleDocument(chat, clock, store, docs[i], cursor, first, schema, classify, parse);
      AppendAssoc(sent, s.sent, rest.sent);
      AppendAssoc(slept, s.sleeps, rest.sleeps);
      AppendAssoc(handled, s.handled, rest.handled);
      AppendAssoc(old(chat.sent), sent, s.sent);
      AppendAssoc(old(clock.slept), slept, s.sleeps);
      sent := sent + s.sent;
      slept := slept + s.sleeps;
      handled := handled + s.handled;
      if stop.Some? {
        return stop.value;
      }
      first := next;
    }
    return Completed;
  }

  /** What `run` does once the results are loaded: the headless pause, the
      cursor, then the loop. */
  method Run(chat: Chat, clock: Clock, store: ResultStore, docs: seq<Document>, schema: string,
             headless: bool, continueAt: Option<int>, continueLast: bool, classify: string -> Verdict,
             parse: string -> Option<Json>)
    returns (outcome: RunOutcome)
    modifies chat, clock, store
    ensures var pause := if headless then [HeadlessSleep] else [];
      var c := ResumeCursor(continueAt, continueLast, old(store.entries));
      if c.Err? then
        outcome == Crashed(c.error) && chat.sent == old(chat.sent) && chat.pending == old(chat.pending)
        && store.entries == old(store.entries) && store.saved == old(store.saved)
        && clock.slept == old(clock.slept) + pause
      else
        var p := Process(docs, c.value, true, AsWritten, schema, classify, parse, old(store.entries), old(chat.pending));
        outcome == p.outcome && store.entries == p.entries && chat.pending == p.pending
        && chat.sent == old(chat.sent) + p.sent && clock.slept == old(clock.slept) + pause + p.sleeps
        && store.saved == if p.handled == [] then old(store.saved) else p.entries
  {
    if headless {
      clock.Sleep(HeadlessSleep);
    }
    var c := ResumeCursor(continueAt, continueLast, store.entries);
    if c.Err? {
      return Crashed(c.error);
    }
    outcome := ProcessDocuments(chat, clock, store, docs, c.value, schema, classify, parse);
  }

  /** `__main__`: read the documents, then refuse `--continue-at` together
      with `--continue-last` (the `assert` tests the truthiness of both, and
      the cursor argument is a non-empty text, so every given cursor counts),
      then `run`. `loaded` is what reading the input gave. */
  method Start(chat: Chat, clock: Clock, store: ResultStore, inputType: InputType, contents: string,
               parsed: Option<Json>, keydoc: string, keyid: string, schema: string, headless: bool,
               continueAt: Option<int>, continueLast: bool, parse: string -> Option<Json>)
    returns (loaded: Result<seq<Document>, LoadError>, outcome: RunOutcome)
    modifies chat, clock, store
    ensures inputType == JsonInput && Precheck(parsed, keydoc).Err? ==> loaded.Err?
    ensures inputType != JsonInput ==> loaded.Ok?
    ensures inputType == JsonInput && Precheck(parsed, keydoc).Ok? ==> var items := Precheck(parsed, keydoc).value;
      (forall i :: 0 <= i < |items| ==> DocumentAt(items[i], i, keydoc, keyid).Ok?) ==> loaded.Ok?
    ensures loaded.Err? ==> outcome == Crashed(BadInput(loaded.error))
    ensures loaded.Ok? && continueLast && continueAt.Some? ==>
      outcome == Crashed(BothResumeOptions)
    ensures loaded.Err? || (continueLast && continueAt.Some?) ==>
      chat.sent == old(chat.sent) && chat.pending == old(chat.pending) && clock.slept == old(clock.slept)
      && store.entries == old(store.entries) && store.saved == old(store.saved)
    ensures loaded.Ok? && !(continueLast && continueAt.Some?) ==>
      var pause := if headless then [HeadlessSleep] else [];
      var c := ResumeCursor(continueAt, continueLast, old(store.entries));
      if c.Err? then
        outcome == Crashed(c.error) && chat.sent == old(chat.sent) && chat.pending == old(chat.pending)
        && store.entries == old(store.entries) && store.saved == old(store.saved)
        && clock.slept == old(clock.slept) + pause
      else
        var p := Process(loaded.value, c.value, true, AsWritten, schema, Classify, parse, old(store.entries), old(chat.pending));
        outcome == p.outcome && store.entries == p.entries && chat.pending == p.pending
        && chat.sent == old(chat.sent) + p.sent && clock.slept == old(clock.slept) + pause + p.sleeps
        && store.saved == if p.handled == [] then old(store.saved) else p.entries
  {
    loaded := ParseInputDocuments(inputType, contents, parsed, keydoc, keyid);
    if loaded.Err? {
      return loaded, Crashed(BadInput(loaded.error));
    }
    if continueLast && continueAt.Some? {
      return loaded, Crashed(BothResumeOptions);
    }
    outcome := Run(chat, clock, store, loaded.value, schema, headless, continueAt, continueLast, Classify, parse);
  }

  // ---------------------------------------------------------------------
  // What the loop does over all the documents

  /** The ids of the documents the loop sends, in order. */
  function Selected(docs: seq<Document>, cursor: Option<int>): (ids: seq<int>)
    ensures |ids| <= |docs|
  {
    if docs == [] then []
    else (if GateOf(docs[0], cursor) == Send then [docs[0].id] else []) + Selected(docs[1..], cursor)
  }

  /** The documents whose record is upserted are the selected ones, in
      order: all of them when the loop completes, the first few otherwise. */
  lemma {:induction false} HandledSelected(docs: seq<Document>, cursor: Option<int>, first: bool, rule: PacingRule, schema: string,
                                           classify: string -> Verdict, parse: string -> Option<Json>,
                                           entries: seq<Record>, pending: seq<string>)
    ensures var p := Process(docs, cursor, first, rule, schema, classify, parse, entries, pending);
      p.handled <= Selected(docs, cursor)
      && (p.outcome == Completed ==> p.handled == Selected(docs, cursor))
    decreases |docs|
  {
    if docs != [] {
      var s := Step(docs[0], cursor, first, rule, schema, classify, parse, entries, pending);
      var own := if GateOf(docs[0], cursor) == Send then [docs[0].id] else [];
      assert Selected(docs, cursor) == own + Selected(docs[1..], cursor);
      if s.stop.None? {
        var rest := Process(docs[1..], cursor, s.first, rule, schema, classify, parse, s.entries, s.pending);
        HandledSelected(docs[1..], cursor, s.first, rule, schema, classify, parse, s.entries, s.pending);
        assert s.handled == own;
        assert Process(docs, cursor, first, rule, schema, classify, parse, entries, pending).handled == own + rest.handled;
      }
    }
  }

  /** The ids in the results afterwards are those before plus the handled
      ones. */
  lemma {:induction false} ProcessIds(docs: seq<Document>, cursor: Option<int>, first: bool, rule: PacingRule, schema: string,
                                      classify: string -> Verdict, parse: string -> Option<Json>,
                                      entries: seq<Record>, pending: seq<string>)
    ensures var p := Process(docs, cursor, first, rule, schema, classify, parse, entries, pending);
      Ids(p.entries) == Ids(entries) + (set id | id in p.handled)
    decreases |docs|
  {
    if docs != [] {
      var s := Step(docs[0], cursor, first, rule, schema, classify, parse, entries, pending);
      StepIds(docs[0], cursor, first, rule, schema, classify, parse, entries, pending);
      if s.stop.None? {
        var rest := Process(docs[1..], cursor, s.first, rule, schema, classify, parse, s.entries, s.pending);
        ProcessIds(docs[1..], cursor, s.first, rule, schema, classify, parse, s.entries, s.pending);
        var p := Process(docs, cursor, first, rule, schema, classify, parse, entries, pending);
        assert p.entries == rest.entries && p.handled == s.handled + rest.handled;
      }
    }
  }

  /** The loop keeps the ids in the results unique. */
  lemma {:induction false} ProcessKeepsUnique(docs: seq<Document>, cursor: Option<int>, first: bool, rule: PacingRule, schema: string,
                                              classify: string -> Verdict, parse: string -> Option<Json>,
                                              entries: seq<Record>, pending: seq<string>)
    requires UniqueIds(entries)
    ensures UniqueIds(Process(docs, cursor, first, rule, schema, classify, parse, entries, pending).entries)
    decreases |docs|
  {
    if docs != [] {
      var s := Step(docs[0], cursor, first, rule, schema, classify, parse, entries, pending);
      StepIds(docs[0], cursor, first, rule, schema, classify, parse, entries, pending);
      if s.stop.None? {
        ProcessKeepsUnique(docs[1..], cursor, s.first, rule, schema, classify, parse, s.entries, s.pending);
      }
    }
  }

  /** One document adds its id to the results, or nothing. */
  lemma StepIds(d: Document, cursor: Option<int>, first: bool, rule: PacingRule, schema: string,
                classify: string -> Verdict, parse: string -> Option<Json>,
                entries: seq<Record>, pending: seq<string>)
    ensures var s := Step(d, cursor, first, rule, schema, classify, parse, entries, pending);
      Ids(s.entries) == Ids(entries) + (set id | id in s.handled)
      && (UniqueIds(entries) ==> UniqueIds(s.entries))
  {
    var s := Step(d, cursor, first, rule, schema, classify, parse, entries, pending);
    if s.handled != [] {
      var prompt := Prompt(d.text.s, schema);
      var a := Expected(prompt, pending, classify);
      var r := RecordOf(d.id, d.text.s, a.outcome, parse);
      assert s.entries == Upserted(entries, r);
      UpsertIds(entries, r);
      if UniqueIds(entries) {
        UpsertKeepsUnique(entries, r);
      }
    }
  }

  /** No exchange sleeps as long as the pacing pause: its sleeps are
      backoffs of 120 s and more, or the rate-limit hour. */
  lemma NoPacingInExchange(prompt: string, replies: seq<string>, classify: string -> Verdict)
    ensures PacingSleep !in Expected(prompt, replies, classify).sleeps
  {
    var a := Expected(prompt, replies, classify);
    var vs := Verdicts(replies, classify);
    var u := Min(LeadingUnusable(vs), MaxWaits);
    assert PacingSleep !in Backoff(u);
    assert PacingSleep !in Backoff(MaxWaits);
  }

  /** As written, a step from a true `first_scrape` never pauses and leaves
      the flag true. */
  lemma StepNeverPaces(d: Document, cursor: Option<int>, schema: string,
                       classify: string -> Verdict, parse: string -> Option<Json>,
                       entries: seq<Record>, pending: seq<string>)
    ensures var s := Step(d, cursor, true, AsWritten, schema, classify, parse, entries, pending);
      PacingSleep !in s.sleeps && s.first
  {
    var s := Step(d, cursor, true, AsWritten, schema, classify, parse, entries, pending);
    if GateOf(d, cursor) == Send && d.text.JString? {
      var a := Expected(Prompt(d.text.s, schema), pending, classify);
      NoPacingInExchange(Prompt(d.text.s, schema), pending, classify);
      assert s.sleeps == a.sleeps;
    }
  }

  /** As written, the loop never takes the pacing pause, however many
      documents it sends. */
  lemma {:induction false} ProcessNeverPaces(docs: seq<Document>, cursor: Option<int>, schema: string,
                                             classify: string -> Verdict, parse: string -> Option<Json>,
                                             entries: seq<Record>, pending: seq<string>)
    ensures PacingSleep !in Process(docs, cursor, true, AsWritten, schema, classify, parse, entries, pending).sleeps
    decreases |docs|
  {
    if docs != [] {
      var s := Step(docs[0], cursor, true, AsWritten, schema, classify, parse, entries, pending);
      StepNeverPaces(docs[0], cursor, schema, classify, parse, entries, pending);
      if s.stop.None? {
        var rest := Process(docs[1..], cursor, true, AsWritten, schema, classify, parse, s.entries, s.pending);
        ProcessNeverPaces(docs[1..], cursor, schema, classify, parse, s.entries, s.pending);
        assert Process(docs, cursor, true, AsWritten, schema, classify, parse, entries, pending).sleeps
          == s.sleeps + rest.sleeps;
      }
    }
  }

  /** With the flag cleared, one document that does not stop the loop
      pauses once if it is sent after another, and not otherwise. */
  lemma StepPacing(d: Document, cursor: Option<int>, first: bool, schema: string,
                   classify: string -> Verdict, parse: string -> Option<Json>,
                   entries: seq<Record>, pending: seq<string>)
    ensures var s := Step(d, cursor, first, Corrected, schema, classify, parse, entries, pending);
      s.stop.None? ==>
        multiset(s.sleeps)[PacingSleep] == if s.handled != [] && !first then 1 else 0
  {
    var s := Step(d, cursor, first, Corrected, schema, classify, parse, entries, pending);
    if s.stop.None? && GateOf(d, cursor) == Send {
      var a := Expected(Prompt(d.text.s, schema), pending, classify);
      NoPacingInExchange(Prompt(d.text.s, schema), pending, classify);
      assert s.sleeps == Pacing(first) + a.sleeps;
    }
  }

  /** With the flag cleared, the completed loop has paused once before every
      document it sent but the first. */
  lemma {:induction false} PacingCount(docs: seq<Document>, cursor: Option<int>, first: bool, schema: string,
                                       classify: string -> Verdict, parse: string -> Option<Json>,
                                       entries: seq<Record>, pending: seq<string>)
    ensures var p := Process(docs, cursor, first, Corrected, schema, classify, parse, entries, pending);
      p.outcome == Completed ==>
        multiset(p.sleeps)[PacingSleep] == if first && p.handled != [] then |p.handled| - 1 else |p.handled|
    decreases |docs|
  {
    if docs != [] {
      var s := Step(docs[0], cursor, first, Corrected, schema, classify, parse, entries, pending);
      if s.stop.None? {
        var rest := Process(docs[1..], cursor, s.first, Corrected, schema, classify, parse, s.entries, s.pending);
        PacingCount(docs[1..], cursor, s.first, schema, classify, parse, s.entries, s.pending);
        StepPacing(docs[0], cursor, first, schema, classify, parse, entries, pending);
        var p := Process(docs, cursor, first, Corrected, schema, classify, parse, entries, pending);
        assert p.outcome == rest.outcome && p.sleeps == s.sleeps + rest.sleeps && p.handled == s.handled + rest.handled;
        assert s.handled == [] ==> s.first == first;
        assert s.handled != [] ==> !s.first && |s.handled| == 1;
      }
    }
  }

  // ---------------------------------------------------------------------
  // Skipping, resuming and pacing, as the source has them

  /** The gate as the source runs it: `--continue-at` reaches the loop as
      the text argparse read, so comparing an integer id with it raises
      TypeError for every document that gets that far. */
  function GateAsWritten(d: Document, continueAt: Option<string>): (g: Gate)
    ensures g == Send ==> continueAt.None?
  {
    if !Truthy(d.text) then Skip
    else if d.text.JNumber? || d.text.JBool? then Stop(TextHasNoLength(d.id))
    else if continueAt.Some? then Stop(IdComparedWithText(d.id))
    else Send
  }

  /** With `--continue-at` given, the first non-blank text document stops
      the run with TypeError; with the cursor read as an integer, the same
      document is sent exactly when its id is at or past the cursor. */
  lemma ContinueAtCrashes(d: Document, arg: string, cursor: int)
    requires d.text.JString? && d.text.s != []
    ensures GateAsWritten(d, Some(arg)) == Stop(IdComparedWithText(d.id))
    ensures GateOf(d, Some(cursor)) == Send <==> d.id >= cursor
    ensures GateOf(d, Some(cursor)) == Skip <==> d.id < cursor
  {
  }

  /** A text document is skipped exactly when it is empty or below the
      cursor, and sent otherwise. */
  lemma SkipIff(id: int, text: string, cursor: Option<int>)
    ensures GateOf(Document(id, JString(text)), cursor) == Skip <==> text == [] || (cursor.Some? && id < cursor.value)
    ensures GateOf(Document(id, JString(text)), cursor) == Send <==> text != [] && (cursor.None? || id >= cursor.value)
  {
  }

  /** The pacing step as the source has it: the pause and the reset of
      `first_scrape` sit under `if not first_scrape`; the sleeps before a
      send and the flag after it. */
  function PacingAsWritten(firstScrape: bool): (r: (seq<nat>, bool))
    ensures r.1 == firstScrape
  {
    if !firstScrape then ([PacingSleep], false) else ([], firstScrape)
  }

  // ---------------------------------------------------------------------
  // Examples

  /** With ids 0, 2 and 5 already saved, `--continue-last` resumes at 6:
      document 3 is skipped and document 6 is sent. */
  lemma ResumeExample()
    ensures var loaded := [Record(0, "a", "", None, None), Record(2, "b", "", None, None), Record(5, "c", "", None, None)];
      ResumeCursor(None, true, loaded) == Ok(Some(6))
      && GateOf(Document(3, JString("x")), Some(6)) == Skip
      && GateOf(Document(6, JString("x")), Some(6)) == Send
  {
    var loaded := [Record(0, "a", "", None, None), Record(2, "b", "", None, None), Record(5, "c", "", None, None)];
    assert loaded[1..] == [Record(2, "b", "", None, None), Record(5, "c", "", None, None)];
    assert loaded[1..][1..] == [Record(5, "c", "", None, None)];
  }

  /** A text line holding only its newline is not blank to `not page_text`:
      it is sent. */
  lemma NewlineLineSent(id: int)
    ensures GateOf(Document(id, JString("\n")), None) == Send
  {
  }

  /** The data of a reply is what `parse` makes of the text between its
      first two fences: the text before each fence may hold backticks, only
      no fence, and it may not end in a backtick (that one would start the
      fence earlier). */
  lemma FencedReply(a: string, b: string, c: string, parse: string -> Option<Json>)
    requires !Contains(a, Fence) && (a == [] || a[|a| - 1] != '`')
    requires !Contains(b, Fence) && (b == [] || b[|b| - 1] != '`')
    ensures ParseData(a + (Fence + (b + (Fence + c))), parse) == parse(b)
  {
    FenceStartsAfter(a);
    FenceStartsAfter(b);
    SecondFieldBetween(a, Fence, b, c);
  }
}
