/**
 How much context may be used and how much is: the ladder of ceilings, the budget left for history,
 what a thread costs now, the ceiling learned from traffic, and the halving retry.
 */
module ContextBudget {
  import opened Wrappers

  // ---- the ladder and the budget ----

  datatype LimitSource = Config | Learned | Declared | Catalog | Estimated | Unknown

  datatype ContextLimit = ContextLimit(tokens: Option<int>, source: LimitSource)

  /** What each rung has to say, by descending authority. */
  datatype Ladder = Ladder(
    configured: Option<int>, learned: Option<int>, declared: Option<int>, catalog: Option<int>, estimated: Option<int>)
  {
    function Rungs(): seq<(Option<int>, LimitSource)> {
      [(configured, Config), (learned, Learned), (declared, Declared), (catalog, Catalog), (estimated, Estimated)]
    }
  }

  predicate Positive(value: Option<int>) {
    value.Some? && value.value > 0
  }

  /** `int(x)`: towards zero. */
  function Truncate(x: real): int {
    if x >= 0.0 then x.Floor else -(-x).Floor
  }

  function WindowFromMaxTokens(maxTokens: Option<int>, ratio: real): Option<int> {
    var stated := if maxTokens.Some? then maxTokens.value else 0;
    var window := Truncate(stated as real * if ratio < 0.0 then 0.0 else ratio);
    if window > 0 then Some(window) else None
  }

  /** A window is derived from a stated `max_tokens` only when that leaves at least one token, and is then
      the most that stays within the ratio; nothing is derived from an absent one. */
  lemma DerivedWindow(maxTokens: Option<int>, ratio: real)
    ensures var w := WindowFromMaxTokens(maxTokens, ratio);
            if maxTokens.Some? && ratio >= 0.0 && maxTokens.value as real * ratio >= 1.0 then
              w.Some? && w.value > 0 && w.value as real <= maxTokens.value as real * ratio < w.value as real + 1.0
            else w == None
  {
    if maxTokens.Some? && maxTokens.value < 0 && ratio >= 0.0 {
      NonPositive(maxTokens.value as real, ratio);
    }
  }

  lemma NonPositive(a: real, b: real)
    requires a <= 0.0 && b >= 0.0
    ensures a * b <= 0.0
  {
  }

  function FirstPositive(rungs: seq<(Option<int>, LimitSource)>): ContextLimit {
    if rungs == [] then ContextLimit(None, Unknown)
    else if Positive(rungs[0].0) then ContextLimit(rungs[0].0, rungs[0].1)
    else FirstPositive(rungs[1..])
  }

  method ResolveContextLimit(ladder: Ladder) returns (limit: ContextLimit)
    ensures limit == FirstPositive(ladder.Rungs())
  {
    var rungs := ladder.Rungs();
    for i := 0 to |rungs|
      invariant FirstPositive(rungs) == FirstPositive(rungs[i..])
    {
      if Positive(rungs[i].0) {
        return ContextLimit(rungs[i].0, rungs[i].1);
      }
    }
    limit := ContextLimit(None, Unknown);
  }

  /** What is paid for before history: the prompt and tools, and the reply. */
  datatype Costs = Costs(overhead: int, reserve: int, margin: real)

  function Usable(tokens: int, costs: Costs): int {
    Truncate(tokens as real * (1.0 - costs.margin))
  }

  function Room(tokens: int, costs: Costs): int {
    Usable(tokens, costs) - Max0(costs.overhead) - Max0(costs.reserve)
  }

  function UsableWindow(limit: ContextLimit, costs: Costs): ContextLimit {
    if limit.tokens.None? || limit.source != Estimated then limit
    else if Room(limit.tokens.value, costs) > 0 then limit
    else ContextLimit(None, Unknown)
  }

  function HistoryBudget(limit: ContextLimit, costs: Costs): Option<nat> {
    var window := UsableWindow(limit, costs);
    if window.tokens.None? then None else Some(Max0(Room(window.tokens.value, costs)))
  }

  predicate Silent(ladder: Ladder) {
    && !Positive(ladder.configured) && !Positive(ladder.learned)
    && !Positive(ladder.declared) && !Positive(ladder.catalog)
  }

  /** A rung is heard exactly when it states more than nothing. */
  lemma PositiveIs(value: int)
    ensures Positive(Some(value)) <==> value > 0
    ensures !Positive(None)
  {
  }

  /** The ladder's answer is the first positive rung's. */
  lemma LadderPicksFirstPositive(ladder: Ladder)
    ensures var limit := FirstPositive(ladder.Rungs());
            && limit == (if Positive(ladder.configured) then ContextLimit(ladder.configured, Config)
                         else if Positive(ladder.learned) then ContextLimit(ladder.learned, Learned)
                         else if Positive(ladder.declared) then ContextLimit(ladder.declared, Declared)
                         else if Positive(ladder.catalog) then ContextLimit(ladder.catalog, Catalog)
                         else if Positive(ladder.estimated) then ContextLimit(ladder.estimated, Estimated)
                         else ContextLimit(None, Unknown))
  {
    var r := ladder.Rungs();
    NextRung(r[4], []);
    NextRung(r[3], [r[4]]);
    NextRung(r[2], [r[3], r[4]]);
    NextRung(r[1], [r[2], r[3], r[4]]);
    NextRung(r[0], [r[1], r[2], r[3], r[4]]);
    assert [r[0]] + [r[1], r[2], r[3], r[4]] == r && [r[1]] + [r[2], r[3], r[4]] == [r[1], r[2], r[3], r[4]];
    assert [r[2]] + [r[3], r[4]] == [r[2], r[3], r[4]] && [r[3]] + [r[4]] == [r[3], r[4]] && [r[4]] + [] == [r[4]];
  }

  lemma NextRung(rung: (Option<int>, LimitSource), rest: seq<(Option<int>, LimitSource)>)
    ensures FirstPositive([rung] + rest) == if Positive(rung.0) then ContextLimit(rung.0, rung.1) else FirstPositive(rest)
  {
    assert ([rung] + rest)[1..] == rest;
  }

  /** Through ladder, window check and budget. No budget means nobody stated a ceiling and the derived
      one, if any, leaves no room; a budget of 0 means a stated one is full; and a positive budget,
      with all that is sent beside it, is what the ceiling less its margin comes to. */
  lemma BudgetThroughTheLadder(ladder: Ladder, costs: Costs)
    ensures var limit := FirstPositive(ladder.Rungs());
            var budget := HistoryBudget(limit, costs);
            && (budget.None? <==> Silent(ladder) && (Positive(ladder.estimated) ==> Room(ladder.estimated.value, costs) <= 0))
            && (budget == Some(0) ==> !Silent(ladder) && limit.tokens.Some? && Room(limit.tokens.value, costs) <= 0)
            && (budget.Some? && budget.value > 0 ==>
                  limit.tokens.Some? &&
                  budget.value + Max0(costs.overhead) + Max0(costs.reserve) == Usable(limit.tokens.value, costs))
  {
    LadderPicksFirstPositive(ladder);
  }

  /** In tokens: what is sent, the budget and all that goes beside it, is within one of what the ceiling less
      its margin comes to; no budget, or none left, means that it does not reach past what goes beside it. */
  lemma BudgetInTokens(ladder: Ladder, costs: Costs)
    requires costs.margin <= 1.0
    ensures var limit := FirstPositive(ladder.Rungs());
            limit.tokens.Some? ==> limit.tokens.value > 0 && FitsInTokens(limit, costs, LessMargin(limit.tokens.value, costs.margin))
  {
    hide FitsInTokens, LessMargin, Usable;
    LadderPicksFirstPositive(ladder);
    var limit := FirstPositive(ladder.Rungs());
    if limit.tokens.Some? {
      UsableReaches(limit.tokens.value, costs);
      BudgetReaches(limit, costs, LessMargin(limit.tokens.value, costs.margin));
    }
  }

  function LessMargin(tokens: int, margin: real): real {
    tokens as real * (1.0 - margin)
  }

  predicate FitsInTokens(limit: ContextLimit, costs: Costs, reach: real) {
    var overhead, reserve := if costs.overhead > 0 then costs.overhead else 0, if costs.reserve > 0 then costs.reserve else 0;
    var room := reach - (overhead + reserve) as real;
    match HistoryBudget(limit, costs)
    case Some(budget) => if budget > 0 then budget as real <= room < budget as real + 1.0 else room < 1.0
    case None => room < 1.0 && limit.source == Estimated
  }

  lemma Share(tokens: nat, part: real)
    requires part >= 0.0
    ensures tokens as real * part >= 0.0
  {
  }

  lemma UsableReaches(tokens: nat, costs: Costs)
    requires costs.margin <= 1.0
    ensures Usable(tokens, costs) as real <= LessMargin(tokens, costs.margin) < Usable(tokens, costs) as real + 1.0
  {
    Share(tokens, 1.0 - costs.margin);
  }

  lemma BudgetReaches(limit: ContextLimit, costs: Costs, reach: real)
    requires limit.tokens.Some? && limit.tokens.value > 0
    requires Usable(limit.tokens.value, costs) as real <= reach < Usable(limit.tokens.value, costs) as real + 1.0
    ensures FitsInTokens(limit, costs, reach)
  {
    hide Usable;
  }

  // ---- what a thread costs ----

  const SUMMARY_ROLE := "summary"

  datatype Metrics = Metrics(promptTokens: Option<int>, completionTokens: Option<int>, exact: bool)

  datatype Message = Message(role: string, createdAt: Option<int>, metrics: Option<Metrics>, text: string)

  /** How a message is counted and whether the model reads it: the token counter and the replay rule
      are other modules'. */
  datatype Counting = Counting(tokens: Message -> nat, replays: Message -> bool)

  datatype ContextUsage = ContextUsage(used: int, limit: Option<int>, measured: bool, source: LimitSource)

  function Estimate(ms: seq<Message>, c: Counting): nat {
    if ms == [] then 0 else (if c.replays(ms[0]) then c.tokens(ms[0]) else 0) + Estimate(ms[1..], c)
  }

  function OrZero(value: Option<int>): int {
    if value.Some? then value.value else 0
  }

  function Reported(m: Message): int {
    if m.metrics.Some? then OrZero(m.metrics.value.promptTokens) else 0
  }

  /** A turn a provider's count was recorded for, not older than the summary made at `since`. */
  predicate IsAnchor(m: Message, since: Option<int>) {
    && m.role == "assistant" && Reported(m) > 0
    && !(since.Some? && OrZero(m.createdAt) < since.value)
  }

  predicate IsSummary(m: Message) {
    m.role == SUMMARY_ROLE
  }

  function AnchorTest(since: Option<int>): Message -> bool {
    m => IsAnchor(m, since)
  }

  /** The newest position satisfying `p`, as a position counted from 1; 0 without one. */
  function Last(ms: seq<Message>, p: Message -> bool): (n: nat)
    ensures n <= |ms|
    ensures n > 0 ==> p(ms[n - 1])
    ensures forall i | n <= i < |ms| :: !p(ms[i])
  {
    if ms == [] then 0 else if p(ms[|ms| - 1]) then |ms| else Last(ms[..|ms| - 1], p)
  }

  /** The part of the thread the model still reads: from the newest summary on. */
  function Live(thread: seq<Message>): seq<Message> {
    var n := Last(thread, IsSummary);
    if n == 0 then thread else thread[n - 1..]
  }

  function SummarisedAt(thread: seq<Message>): Option<int> {
    var n := Last(thread, IsSummary);
    if n == 0 then None else thread[n - 1].createdAt
  }

  function Usage(thread: seq<Message>, limit: ContextLimit, c: Counting): ContextUsage {
    var live, since := Live(thread), SummarisedAt(thread);
    var n := Last(live, AnchorTest(since));
    if n == 0 then ContextUsage(Estimate(live, c), limit.tokens, false, limit.source)
    else
      var m := live[n - 1].metrics.value;
      ContextUsage(Reported(live[n - 1]) + OrZero(m.completionTokens) + Estimate(live[n..], c),
                   limit.tokens, m.exact, limit.source)
  }

  method ScanForSummary(thread: seq<Message>) returns (n: nat)
    ensures n == Last(thread, IsSummary)
  {
    n := |thread|;
    while n > 0
      invariant n <= |thread|
      invariant forall j | n <= j < |thread| :: !IsSummary(thread[j])
    {
      if thread[n - 1].role == SUMMARY_ROLE {
        break;
      }
      n := n - 1;
    }
    LastIs(thread, IsSummary, n);
  }

  method ScanForAnchor(msgs: seq<Message>, summarisedAt: Option<int>) returns (n: nat)
    ensures n == Last(msgs, AnchorTest(summarisedAt))
  {
    n := |msgs|;
    while n > 0
      invariant n <= |msgs|
      invariant forall j | n <= j < |msgs| :: !IsAnchor(msgs[j], summarisedAt)
    {
      var m := msgs[n - 1];
      var stale := summarisedAt.Some? && OrZero(m.createdAt) < summarisedAt.value;
      if m.role == "assistant" && Reported(m) > 0 && !stale {
        break;
      }
      n := n - 1;
    }
    LastIs(msgs, AnchorTest(summarisedAt), n);
  }

  /** The two backward scans, and the figure they come to. */
  method FindUsage(thread: seq<Message>, limit: ContextLimit, c: Counting) returns (usage: ContextUsage)
    ensures usage == Usage(thread, limit, c)
  {
    hide Last, Estimate;
    var msgs := thread;
    var summarisedAt: Option<int> := None;
    var n := ScanForSummary(thread);
    if n > 0 {
      summarisedAt := thread[n - 1].createdAt;
      msgs := thread[n - 1..];
    }
    n := ScanForAnchor(msgs, summarisedAt);
    if n > 0 {
      var metrics := msgs[n - 1].metrics.value;
      var used := Reported(msgs[n - 1]) + OrZero(metrics.completionTokens) + Estimate(msgs[n..], c);
      return ContextUsage(used, limit.tokens, metrics.exact, limit.source);
    }
    usage := ContextUsage(Estimate(msgs, c), limit.tokens, false, limit.source);
  }

  lemma LastIs(ms: seq<Message>, p: Message -> bool, n: nat)
    requires n <= |ms| && (n > 0 ==> p(ms[n - 1]))
    requires forall i | n <= i < |ms| :: !p(ms[i])
    ensures Last(ms, p) == n
  {
  }

  /** Everything behind the newest summary is out of account: a thread that opens with one costs the
      same whatever came before it. */
  lemma SummaryIsANewBeginning(before: seq<Message>, thread: seq<Message>, limit: ContextLimit, c: Counting)
    requires thread != [] && thread[0].role == SUMMARY_ROLE
    ensures Usage(before + thread, limit, c) == Usage(thread, limit, c)
  {
    hide Last, Estimate, Live, SummarisedAt;
    LiveOfSummary(before, thread);
  }

  lemma LiveOfSummary(before: seq<Message>, thread: seq<Message>)
    requires thread != [] && thread[0].role == SUMMARY_ROLE
    ensures Live(before + thread) == Live(thread) && SummarisedAt(before + thread) == SummarisedAt(thread)
  {
    hide Last;
    var n, all := Last(thread, IsSummary), before + thread;
    assert IsSummary(thread[0]);
    assert forall j | 0 <= j < |thread| :: all[|before| + j] == thread[j];
    assert forall i | |before| + n <= i < |all| :: all[i] == thread[i - |before|];
    LastIs(all, IsSummary, |before| + n);
    assert all[|before| + n - 1..] == thread[n - 1..];
  }

  lemma {:induction false} EstimateParts(a: seq<Message>, b: seq<Message>, c: Counting)
    ensures Estimate(a + b, c) == Estimate(a, c) + Estimate(b, c)
  {
    if a == [] {
      assert a + b == b;
    } else {
      assert (a + b)[1..] == a[1..] + b;
      EstimateParts(a[1..], b, c);
    }
  }

  /** Appending a message that is neither a summary nor an anchor adds exactly its estimate, and
      nothing at all when the model does not read it; what is measured stays so. */
  lemma AppendingCostsItsEstimate(thread: seq<Message>, m: Message, limit: ContextLimit, c: Counting)
    requires m.role != SUMMARY_ROLE && !IsAnchor(m, SummarisedAt(thread))
    ensures var was, now := Usage(thread, limit, c), Usage(thread + [m], limit, c);
            now == was.(used := was.used + if c.replays(m) then c.tokens(m) else 0)
  {
    hide Last, Estimate, Live, SummarisedAt;
    LiveAppends(thread, m);
    UsageAppends(Live(thread), SummarisedAt(thread), m, c);
  }

  lemma LiveAppends(thread: seq<Message>, m: Message)
    requires m.role != SUMMARY_ROLE
    ensures Live(thread + [m]) == Live(thread) + [m] && SummarisedAt(thread + [m]) == SummarisedAt(thread)
  {
    hide Last;
    var n := Last(thread, IsSummary);
    LastIs(thread + [m], IsSummary, n);
  }

  lemma UsageAppends(live: seq<Message>, since: Option<int>, m: Message, c: Counting)
    requires !IsAnchor(m, since)
    ensures var n := Last(live, AnchorTest(since));
            && Last(live + [m], AnchorTest(since)) == n
            && Estimate((live + [m])[n..], c) == Estimate(live[n..], c) + Estimate([m], c)
            && Estimate(live + [m], c) == Estimate(live, c) + Estimate([m], c)
            && Estimate([m], c) == if c.replays(m) then c.tokens(m) else 0
  {
    var n := Last(live, AnchorTest(since));
    LastIs(live + [m], AnchorTest(since), n);
    assert (live + [m])[n..] == live[n..] + [m];
    EstimateParts(live[n..], [m], c);
    EstimateParts(live, [m], c);
    assert [m][1..] == [];
  }

  /** The figure comes from message `i` of the thread: a count recorded for it, its answer, and the
      estimate of what follows; and nothing after it was measured or is a summary. */
  ghost predicate AnchoredAt(thread: seq<Message>, i: nat, used: int, c: Counting) {
    var since := SummarisedAt(thread);
    && i < |thread| && IsAnchor(thread[i], since)
    && (forall j | i < j < |thread| :: !IsAnchor(thread[j], since) && !IsSummary(thread[j]))
    && used == Reported(thread[i]) + OrZero(thread[i].metrics.value.completionTokens) + Estimate(thread[i + 1..], c)
  }

  /** Measured means: anchored on the newest recorded turn no older than the summary, and by the
      provider's own count. */
  lemma MeasuredIsAnchored(thread: seq<Message>, limit: ContextLimit, c: Counting)
    ensures var usage := Usage(thread, limit, c);
            usage.measured ==> exists i: nat :: AnchoredAt(thread, i, usage.used, c) && thread[i].metrics.value.exact
  {
    hide Last, Estimate;
    var live, since := Live(thread), SummarisedAt(thread);
    var n := Last(live, AnchorTest(since));
    var offset := |thread| - |live|;
    if n > 0 {
      LiveIsTail(thread);
      var i := offset + n - 1;
      assert thread[i] == live[n - 1] && thread[i + 1..] == live[n..];
      forall j | i < j < |thread|
        ensures !IsAnchor(thread[j], since)
      {
        assert thread[j] == live[j - offset];
        assert !AnchorTest(since)(live[j - offset]);
      }
      assert AnchoredAt(thread, i, Usage(thread, limit, c).used, c);
    }
  }

  lemma EmptyCosts(c: Counting)
    ensures Estimate([], c) == 0
  {
  }

  /** Kept turns older than the summary before them never make the figure measured: their counts were for
      requests that still held what it replaced. It is the estimate of the summary and what follows. */
  lemma StaleTurnsDoNotMeasure(before: seq<Message>, summary: Message, after: seq<Message>, limit: ContextLimit, c: Counting)
    requires summary.role == "summary" && summary.createdAt.Some?
    requires forall m | m in after ::
               m.role != "summary" &&
               (m.role == "assistant" ==>
                  if m.createdAt.Some? then m.createdAt.value < summary.createdAt.value else 0 < summary.createdAt.value)
    ensures Usage(before + ([summary] + after), limit, c)
         == ContextUsage(Estimate([summary] + after, c), limit.tokens, false, limit.source)
  {
    hide Estimate, Live, SummarisedAt, Last;
    var thread := [summary] + after;
    SummaryIsANewBeginning(before, thread, limit, c);
    LastIs(thread, IsSummary, 1);
    assert thread[0..] == thread;
    LiveFrom(thread);
    assert forall i | 1 <= i < |thread| :: thread[i] == after[i - 1] && thread[i] in after;
    LastIs(thread, AnchorTest(summary.createdAt), 0);
  }

  lemma LiveFrom(thread: seq<Message>)
    requires thread != [] && Last(thread, IsSummary) == 1
    ensures Live(thread) == thread && SummarisedAt(thread) == thread[0].createdAt
  {
    hide Last;
    assert thread[0..] == thread;
  }

  /** A turn with a recorded count, made when the summary was or later, or in a thread without one, is what
      the figure rests on from then on: its count and its answer. */
  lemma FreshTurnMeasures(thread: seq<Message>, m: Message, prompt: int, limit: ContextLimit, c: Counting)
    requires m.role == "assistant" && m.metrics.Some? && m.metrics.value.promptTokens == Some(prompt) && prompt > 0
    requires SummarisedAt(thread).Some? ==>
               (if m.createdAt.Some? then m.createdAt.value else 0) >= SummarisedAt(thread).value
    ensures var answer := if m.metrics.value.completionTokens.Some? then m.metrics.value.completionTokens.value else 0;
            Usage(thread + [m], limit, c) == ContextUsage(prompt + answer, limit.tokens, m.metrics.value.exact, limit.source)
  {
    hide Estimate, Live, SummarisedAt, Last;
    var live, since := Live(thread), SummarisedAt(thread);
    LiveAppends(thread, m);
    LastIs(live + [m], AnchorTest(since), |live| + 1);
    assert (live + [m])[|live| + 1..] == [];
    EmptyCosts(c);
  }

  lemma LiveIsTail(thread: seq<Message>)
    ensures var live := Live(thread);
            && |live| <= |thread| && live == thread[|thread| - |live|..]
            && forall j | |thread| - |live| < j < |thread| :: !IsSummary(thread[j])
  {
    hide Last;
  }

  // ---- the halving retry ----

  function HalveHistory<T>(messages: seq<T>): seq<T> {
    if |messages| <= 1 then messages else messages[|messages| / 2..]
  }

  function HalveTimes<T>(messages: seq<T>, rounds: nat): seq<T> {
    if rounds == 0 then messages else HalveHistory(HalveTimes(messages, rounds - 1))
  }

  function Power2(n: nat): nat {
    if n == 0 then 1 else 2 * Power2(n - 1)
  }

  /** After k rounds the newest ceil(n / 2^k) messages are left: the least number that, doubled k
      times, reaches n. Never none, and down to one once 2^k reaches n. */
  lemma {:induction false} HalvingKeepsTheNewest<T>(messages: seq<T>, rounds: nat)
    requires messages != []
    ensures var left, n, p := HalveTimes(messages, rounds), |messages|, Power2(rounds);
            && 1 <= |left| <= n && left == messages[n - |left|..]
            && (|left| - 1) * p < n <= |left| * p
            && (|left| == 1 <==> n <= p)
  {
    if rounds > 0 {
      HalvingKeepsTheNewest(messages, rounds - 1);
      var before, half := HalveTimes(messages, rounds - 1), Power2(rounds - 1);
      var left := HalveTimes(messages, rounds);
      assert |left| == (|before| + 1) / 2;
      Halved(|messages|, |before|, half);
    }
  }

  lemma Halved(n: nat, before: nat, half: nat)
    requires before >= 1 && half >= 1 && (before - 1) * half < n <= before * half
    ensures var left := (before + 1) / 2;
            (left - 1) * (2 * half) < n <= left * (2 * half) && (left == 1 <==> n <= 2 * half)
  {
    var left := (before + 1) / 2;
    Scaled(2 * left - 2, before - 1, half);
    Scaled(before, 2 * left, half);
    Doubled(left, half);
    Doubled(left - 1, half);
    if left > 1 {
      Scaled(1, left - 1, 2 * half);
    }
  }

  lemma Scaled(a: nat, b: nat, m: nat)
    requires a <= b
    ensures a * m <= b * m
  {
  }

  lemma Doubled(a: nat, m: nat)
    ensures 2 * a * m == a * (2 * m)
  {
  }
}
