/** `scrape_via_prompt`: ask the backend, classify each reply, back off and
    resend on unusable replies, and end in acceptance, refusal or a fatal
    abort. */
module Scrape {
  import opened Wrappers
  import opened Text
  import opened Clean
  import opened Backend

  const UnusableMarker := "unusable response produced by chatgpt"
  const RefusalMarker := "it is not possible to generate a json representation of the provided text"
  const RateLimitReply := "HTTP Error 429: Too many requests"
  /** Replies inspected per document before giving up (`waited > 5`). */
  const MaxWaits := 5
  /** Seconds of backoff per unusable reply seen so far. */
  const BackoffStep := 120
  /** Seconds slept after a rate-limit reply, before aborting. */
  const RateLimitSleep := 3600

  /** The backend says its reply was unusable (any letter case). */
  predicate IsUnusable(reply: string) {
    Contains(Lower(reply), UnusableMarker)
  }

  /** The backend says the text has no JSON representation (any letter case). */
  predicate IsRefusal(reply: string) {
    Contains(Lower(reply), RefusalMarker)
  }

  /** The reply, stripped, is the rate-limit error. */
  predicate IsRateLimit(reply: string) {
    Strip(reply) == RateLimitReply
  }

  /** What the loop makes of one reply. */
  datatype Verdict = Unusable | Refusal | RateLimited | Truncated | Usable

  /** The checks on one reply, in the order the loop makes them; a reply
      without a closing brace is an incomplete JSON document. */
  function Classify(reply: string): Verdict {
    if IsUnusable(reply) then Unusable
    else if IsRefusal(reply) then Refusal
    else if IsRateLimit(reply) then RateLimited
    else if '}' !in reply then Truncated
    else Usable
  }

  /** The verdict of `classify` on each reply, in order. */
  function Verdicts(replies: seq<string>, classify: string -> Verdict): (vs: seq<Verdict>)
    ensures |vs| == |replies|
    ensures forall i :: 0 <= i < |replies| ==> vs[i] == classify(replies[i])
  {
    seq(|replies|, i requires 0 <= i < |replies| => classify(replies[i]))
  }

  /** BadStateException (three causes) and the backend's TimeoutException. */
  datatype AbortReason = TooManyWaits | RateLimit | IncompleteJson | Timeout

  /** What `scrape_via_prompt` returns or raises: `(prompt, reply)`,
      `(prompt, None)`, or an exception. */
  datatype Outcome =
    | Accepted(prompt: string, reply: string)
    | Refused(prompt: string)
    | Aborted(reason: AbortReason)

  /** The outcome of one document's exchange, how many times the backend was
      asked, and what was slept meanwhile. */
  datatype Attempt = Attempt(outcome: Outcome, asks: nat, sleeps: seq<nat>)

  /** How many verdicts at the front of `vs` are Unusable. */
  function LeadingUnusable(vs: seq<Verdict>): (n: nat)
    ensures n <= |vs|
    ensures n < |vs| ==> vs[n] != Unusable
  {
    if vs != [] && vs[0] == Unusable then 1 + LeadingUnusable(vs[1..]) else 0
  }

  /** Every verdict before the first other one is Unusable. */
  lemma {:induction false} LeadingAreUnusable(vs: seq<Verdict>, i: nat)
    requires i < LeadingUnusable(vs)
    ensures vs[i] == Unusable
  {
    if i > 0 {
      LeadingAreUnusable(vs[1..], i - 1);
    }
  }

  /** The sleeps after `n` unusable replies in a row: 120, 240, ... seconds. */
  function Backoff(n: nat): (s: seq<nat>)
    ensures |s| == n
  {
    seq(n, i => BackoffStep * (i + 1))
  }

  /** One more unusable reply extends the backoff by the next step. */
  lemma BackoffStepped(before: seq<nat>, n: nat)
    ensures (before + Backoff(n)) + [BackoffStep * (n + 1)] == before + Backoff(n + 1)
  {
    assert Backoff(n) + [BackoffStep * (n + 1)] == Backoff(n + 1);
  }

  /** One more ask of the same prompt. */
  lemma RepeatedOnce(before: seq<string>, prompt: string, n: nat)
    ensures (before + Repeat(prompt, n)) + [prompt] == before + Repeat(prompt, n + 1)
  {
    assert Repeat(prompt, n) + [prompt] == Repeat(prompt, n + 1);
  }

  /** Total of a list of durations. */
  function Sum(s: seq<nat>): nat {
    if s == [] then 0 else Sum(s[..|s| - 1]) + s[|s| - 1]
  }

  /** How a reply that is not unusable ends the exchange: the outcome and
      what is slept before it. */
  datatype Ending = Ending(outcome: Outcome, sleeps: seq<nat>)

  /** A reply with `verdict` (not Unusable) ends the exchange. */
  function Decide(prompt: string, reply: string, verdict: Verdict): (e: Ending)
    requires verdict != Unusable
    ensures e.outcome.Aborted? || e.outcome.prompt == prompt
    ensures e.sleeps == [] || e.outcome == Aborted(RateLimit)
  {
    match verdict
    case Refusal => Ending(Refused(prompt), [])
    case RateLimited => Ending(Aborted(RateLimit), [RateLimitSleep])
    case Truncated => Ending(Aborted(IncompleteJson), [])
    case Usable => Ending(Accepted(prompt, reply), [])
  }

  /** What asking with `prompt` against the backend's `replies` comes to. The
      first reply that is not unusable decides, provided it comes among the
      first MaxWaits; the reply after MaxWaits unusable ones is asked for but
      never looked at. */
  function Expected(prompt: string, replies: seq<string>, classify: string -> Verdict): (a: Attempt)
    ensures 1 <= a.asks <= MaxWaits + 1 && a.asks <= |replies| + 1
    ensures !a.outcome.Aborted? ==> a.asks <= MaxWaits && a.outcome.prompt == prompt
  {
    var vs := Verdicts(replies, classify);
    var u := Min(LeadingUnusable(vs), MaxWaits);
    if u == |replies| then Attempt(Aborted(Timeout), u + 1, Backoff(u))
    else if u == MaxWaits then Attempt(Aborted(TooManyWaits), MaxWaits + 1, Backoff(MaxWaits))
    else
      var e := Decide(prompt, replies[u], vs[u]);
      Attempt(e.outcome, u + 1, Backoff(u) + e.sleeps)
  }

  /** The backend ran out of replies after `|replies|` unusable ones. */
  lemma ExpectedTimeout(prompt: string, replies: seq<string>, classify: string -> Verdict)
    requires |replies| <= MaxWaits && |replies| <= LeadingUnusable(Verdicts(replies, classify))
    ensures Expected(prompt, replies, classify) == Attempt(Aborted(Timeout), |replies| + 1, Backoff(|replies|))
  {
  }

  /** MaxWaits unusable replies and one more asked for. */
  lemma ExpectedTooMany(prompt: string, replies: seq<string>, classify: string -> Verdict)
    requires MaxWaits < |replies| && MaxWaits <= LeadingUnusable(Verdicts(replies, classify))
    ensures Expected(prompt, replies, classify) == Attempt(Aborted(TooManyWaits), MaxWaits + 1, Backoff(MaxWaits))
  {
  }

  /** The first `k` replies are unusable and reply `k` decides. */
  lemma ExpectedDecided(prompt: string, replies: seq<string>, classify: string -> Verdict, k: nat)
    requires k < MaxWaits && k < |replies| && k <= LeadingUnusable(Verdicts(replies, classify))
    requires Verdicts(replies, classify)[k] != Unusable
    ensures var e := Decide(prompt, replies[k], Verdicts(replies, classify)[k]);
      Expected(prompt, replies, classify) == Attempt(e.outcome, k + 1, Backoff(k) + e.sleeps)
  {
    if k < LeadingUnusable(Verdicts(replies, classify)) {
      LeadingAreUnusable(Verdicts(replies, classify), k);
    }
  }

  /** `scrape_via_prompt(chat, page_text, schema)`: builds the prompt, then
      asks until a reply decides. */
  method ScrapeViaPrompt(chat: Chat, clock: Clock, pageText: string, schema: string) returns (outcome: Outcome)
    modifies chat, clock
    ensures var a := Expected(Prompt(pageText, schema), old(chat.pending), Classify);
      outcome == a.outcome
      && chat.pending == old(chat.pending)[Min(a.asks, |old(chat.pending)|)..]
      && chat.sent == old(chat.sent) + Repeat(Prompt(pageText, schema), a.asks)
      && clock.slept == old(clock.slept) + a.sleeps
  {
    var prompt := Prompt(pageText, schema);
    outcome := AskUntilDecided(chat, clock, prompt, Classify);
  }

  /** The `while True` loop of `scrape_via_prompt`, resending `prompt` and
      judging each reply with `classify`. */
  method AskUntilDecided(chat: Chat, clock: Clock, prompt: string, classify: string -> Verdict) returns (outcome: Outcome)
    modifies chat, clock
    ensures var a := Expected(prompt, old(chat.pending), classify);
      outcome == a.outcome
      && chat.pending == old(chat.pending)[Min(a.asks, |old(chat.pending)|)..]
      && chat.sent == old(chat.sent) + Repeat(prompt, a.asks)
      && clock.slept == old(clock.slept) + a.sleeps
  {
    ghost var replies := chat.pending;
    var waited := 0;
    var currentPrompt := prompt;
    while true
      invariant 0 <= waited <= MaxWaits && waited <= |replies|
      invariant waited <= LeadingUnusable(Verdicts(replies, classify))
      invariant chat.pending == replies[waited..]
      invariant chat.sent == old(chat.sent) + Repeat(prompt, waited)
      invariant clock.slept == old(clock.slept) + Backoff(waited)
      invariant currentPrompt == prompt
      decreases MaxWaits - waited
    {
      var response := chat.Ask(currentPrompt);
      RepeatedOnce(old(chat.sent), prompt, waited);
      if response.None? {
        ExpectedTimeout(prompt, replies, classify);
        return Aborted(Timeout);
      }
      waited := waited + 1;
      if waited > MaxWaits {
        ExpectedTooMany(prompt, replies, classify);
        return Aborted(TooManyWaits);
      }
      var reply := response.value;
      var verdict := classify(reply);
      if verdict == Unusable {
        BackoffStepped(old(clock.slept), waited - 1);
        clock.Sleep(BackoffStep * waited);
        continue;
      }
      ExpectedDecided(prompt, replies, classify, waited - 1);
      if verdict == Refusal {
        return Refused(prompt);
      }
      if verdict == RateLimited {
        clock.Sleep(RateLimitSleep);
        return Aborted(RateLimit);
      }
      if verdict == Truncated {
        return Aborted(IncompleteJson);
      }
      return Accepted(prompt, reply);
    }
  }

  /** Reply `k` is the first one `classify` does not call unusable, and it
      comes among the first MaxWaits. */
  predicate DecidesAt(replies: seq<string>, classify: string -> Verdict, k: nat) {
    k < MaxWaits && k < |replies|
    && (forall i :: 0 <= i < k ==> classify(replies[i]) == Unusable)
    && classify(replies[k]) != Unusable
  }

  /** The reply that decides determines the outcome, after `k` backoff sleeps. */
  lemma ExpectedWhenDecided(prompt: string, replies: seq<string>, classify: string -> Verdict, k: nat)
    requires DecidesAt(replies, classify, k)
    ensures var e := Decide(prompt, replies[k], classify(replies[k]));
      Expected(prompt, replies, classify) == Attempt(e.outcome, k + 1, Backoff(k) + e.sleeps)
  {
    var vs := Verdicts(replies, classify);
    LeadingAtLeast(vs, k);
    ExpectedDecided(prompt, replies, classify, k);
  }

  /** No reply among the first MaxWaits decides: the backend times out if it
      runs out of replies first, otherwise the sixth ask gives up unread. */
  lemma ExpectedWhenUndecided(prompt: string, replies: seq<string>, classify: string -> Verdict)
    requires forall i :: 0 <= i < |replies| && i < MaxWaits ==> classify(replies[i]) == Unusable
    ensures Expected(prompt, replies, classify)
      == if |replies| <= MaxWaits then Attempt(Aborted(Timeout), |replies| + 1, Backoff(|replies|))
         else Attempt(Aborted(TooManyWaits), MaxWaits + 1, Backoff(MaxWaits))
  {
    var vs := Verdicts(replies, classify);
    LeadingAtLeast(vs, Min(|replies|, MaxWaits));
    if |replies| <= MaxWaits {
      ExpectedTimeout(prompt, replies, classify);
    } else {
      ExpectedTooMany(prompt, replies, classify);
    }
  }

  /** A prefix of Unusable verdicts counts toward LeadingUnusable. */
  lemma {:induction false} LeadingAtLeast(vs: seq<Verdict>, k: nat)
    requires k <= |vs| && forall i :: 0 <= i < k ==> vs[i] == Unusable
    ensures k <= LeadingUnusable(vs)
  {
    if k > 0 {
      LeadingAtLeast(vs[1..], k - 1);
    }
  }

  /** `scrape_via_prompt` returns a reply exactly when the first reply that
      is not unusable comes among the first MaxWaits and passes every check;
      that reply is the one returned. */
  lemma AcceptedIff(prompt: string, replies: seq<string>, classify: string -> Verdict, reply: string)
    ensures Expected(prompt, replies, classify).outcome == Accepted(prompt, reply)
      <==> exists k: nat :: DecidesAt(replies, classify, k) && classify(replies[k]) == Usable && replies[k] == reply
  {
    DecidedOrNot(replies, classify);
    if k: nat :| DecidesAt(replies, classify, k) {
      ExpectedWhenDecided(prompt, replies, classify, k);
      forall j: nat | DecidesAt(replies, classify, j) ensures j == k {
        DecidesOnce(replies, classify, j, k);
      }
    } else {
      ExpectedWhenUndecided(prompt, replies, classify);
    }
  }

  /** An accepted reply passed every check `scrape_via_prompt` makes: it is
      not unusable, not a refusal, not a rate-limit notice, and it holds a
      closing brace. */
  lemma AcceptedHasBrace(prompt: string, replies: seq<string>, reply: string)
    ensures Expected(prompt, replies, Classify).outcome == Accepted(prompt, reply) ==>
      '}' in reply && !IsUnusable(reply) && !IsRefusal(reply) && !IsRateLimit(reply)
  {
    AcceptedIff(prompt, replies, Classify, reply);
  }

  /** At most one reply decides. */
  lemma DecidesOnce(replies: seq<string>, classify: string -> Verdict, j: nat, k: nat)
    requires DecidesAt(replies, classify, j) && DecidesAt(replies, classify, k)
    ensures j == k
  {
  }

  /** Either some reply decides, or every reply among the first MaxWaits is
      unusable. */
  lemma DecidedOrNot(replies: seq<string>, classify: string -> Verdict)
    ensures (exists k: nat :: DecidesAt(replies, classify, k))
      || forall i :: 0 <= i < |replies| && i < MaxWaits ==> classify(replies[i]) == Unusable
  {
    if !forall i :: 0 <= i < |replies| && i < MaxWaits ==> classify(replies[i]) == Unusable {
      var i: nat :| i < |replies| && i < MaxWaits && classify(replies[i]) != Unusable;
      FirstDecider(replies, classify, i);
    }
  }

  /** If some reply among the first MaxWaits is not unusable, a first one is. */
  lemma {:induction false} FirstDecider(replies: seq<string>, classify: string -> Verdict, i: nat)
    requires i < |replies| && i < MaxWaits && classify(replies[i]) != Unusable
    ensures exists k: nat :: DecidesAt(replies, classify, k)
  {
    if forall j :: 0 <= j < i ==> classify(replies[j]) == Unusable {
      assert DecidesAt(replies, classify, i);
    } else {
      var j: nat :| j < i && classify(replies[j]) != Unusable;
      FirstDecider(replies, classify, j);
    }
  }

  /** Five unusable replies in a row abort the document after sleeping
      2, 4, 6, 8 and 10 minutes, whatever the sixth reply says. */
  lemma FiveUnusableAbort(prompt: string, replies: seq<string>, classify: string -> Verdict)
    requires |replies| > MaxWaits
    requires forall i :: 0 <= i < MaxWaits ==> classify(replies[i]) == Unusable
    ensures Expected(prompt, replies, classify)
      == Attempt(Aborted(TooManyWaits), 6, [120, 240, 360, 480, 600])
  {
    ExpectedWhenUndecided(prompt, replies, classify);
    assert Backoff(MaxWaits) == [120, 240, 360, 480, 600];
  }

  /** The backoff sleeps add up to 60 n (n + 1) seconds. */
  lemma {:induction false} SumBackoff(n: nat)
    ensures Sum(Backoff(n)) == 60 * (n * (n + 1))
  {
    if n > 0 {
      assert Backoff(n)[..n - 1] == Backoff(n - 1);
      SumBackoff(n - 1);
    }
  }

  /** One document never costs more than 80 minutes of sleep: four backoffs
      and the rate-limit hour. */
  lemma SleepBound(prompt: string, replies: seq<string>, classify: string -> Verdict)
    ensures Sum(Expected(prompt, replies, classify).sleeps) <= 4800
  {
    var vs := Verdicts(replies, classify);
    var u := Min(LeadingUnusable(vs), MaxWaits);
    SumBackoff(u);
    assert u * (u + 1) <= 5 * (u + 1) <= 30;
    if u < |replies| && u < MaxWaits {
      var e := Decide(prompt, replies[u], vs[u]);
      if e.sleeps == [] {
        assert Backoff(u) + e.sleeps == Backoff(u);
      } else {
        assert e.sleeps == [RateLimitSleep];
        assert u * (u + 1) <= 4 * (u + 1) <= 20;
        assert (Backoff(u) + e.sleeps)[..u] == Backoff(u);
      }
    }
  }

  /** The unusable-reply check ignores letter case and wins over every other
      check: any reply holding the marker, in whatever case, is Unusable. */
  lemma UnusableInAnyCase(x: string, m: string, y: string)
    requires Lower(m) == UnusableMarker
    ensures Classify(x + (m + y)) == Unusable
  {
    LowerAppend(x, m + y);
    LowerAppend(m, y);
    var s := Lower(x + (m + y));
    assert s == Lower(x) + (UnusableMarker + Lower(y));
    assert s[|x|..|x| + |UnusableMarker|] == UnusableMarker;
    OccursThenContains(s, UnusableMarker, |x|);
  }

  /** A reply that is not unusable and holds the refusal text, in whatever
      case, is a refusal, whatever else it says. */
  lemma RefusalInAnyCase(x: string, m: string, y: string)
    requires Lower(m) == RefusalMarker && !IsUnusable(x + (m + y))
    ensures Classify(x + (m + y)) == Refusal
  {
    LowerAppend(x, m + y);
    LowerAppend(m, y);
    var s := Lower(x + (m + y));
    assert s == Lower(x) + (RefusalMarker + Lower(y));
    assert s[|x|..|x| + |RefusalMarker|] == RefusalMarker;
    OccursThenContains(s, RefusalMarker, |x|);
  }

  /** The rate-limit reply is recognised with any whitespace around it. */
  lemma RateLimitPadded(pre: string, post: string)
    requires forall i :: 0 <= i < |pre| ==> IsSpace(pre[i])
    requires forall i :: 0 <= i < |post| ==> IsSpace(post[i])
    ensures IsRateLimit(pre + (RateLimitReply + post))
  {
    StripPadded(pre, RateLimitReply, post);
  }
}
