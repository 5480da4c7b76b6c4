/**
 Fitting a thread into a token budget: fold bulky old tool output, else drop from the middle keeping
 the task, else keep the newest message alone.

 The estimator is any function of the messages; what needs it to be a sum over messages says so
 (`Additive`).
 */
module ContextReducers {
  import opened Wrappers
  import opened FoldMarker

  /** A message in either shape the system carries it in; a dict has no `toolName` of its own. `call` is the
      tool call's id and arguments, `rest` whatever else the message carries. */
  datatype Message = Message(isDict: bool, role: string, content: string, toolName: string, call: string, rest: string) {
    /** What folding keeps of it: a dict keeps all but its content, a persisted message its role and the
        tool's call. */
    function Kept(): Message {
      if isDict then this.(content := "") else this.(content := "", rest := "")
    }
  }

  type Estimator = seq<Message> -> int

  /** What the reader is told: nothing, how many outputs were folded, how many messages were dropped
      besides, or that only the newest is left. */
  datatype Note = Untouched | FoldedNote(folds: nat) | DroppedNote(folds: nat, dropped: int) | NewestOnly

  datatype ReductionResult = ReductionResult(messages: seq<Message>, note: Note, changed: bool, lossless: bool)

  const BULKY_TOOL_CHARS: nat := 2_000

  // ---- stage 1: folding ----

  function FoldOne(m: Message): Message {
    var marker := Marker(if m.isDict || m.toolName == "" then "tool" else m.toolName, |m.content|);
    if m.isDict then m.(content := marker) else m.(content := marker, rest := "")
  }

  /** The body is gone: what is left tells the tool's name and how long the body was, and nothing else of
      it, and is no longer than it takes to say that. */
  lemma FoldingTells(m: Message)
    ensures var name := if m.isDict || m.toolName == "" then "tool" else m.toolName;
            var marker := FoldOne(m).content;
            && ReadMarker(marker) == Some((name, |m.content|))
            && |marker| == |name| + |Grouped(|m.content|)| + 1 + |AFTER_NAME| + |AFTER_SIZE|
  {
    MarkerReads(if m.isDict || m.toolName == "" then "tool" else m.toolName, |m.content|);
  }

  /** Two outputs alike but for bodies of one length fold to the same message. */
  lemma FoldingForgets(m: Message, body: string)
    requires |body| == |m.content|
    ensures FoldOne(m.(content := body)) == FoldOne(m)
  {
  }

  /** A folded output is shorter than the bulky one was, however large, unless the tool's name is long. */
  lemma FoldingShrinks(m: Message)
    requires Bulky(m) && |m.toolName| <= 1_900
    ensures |FoldOne(m).content| < |m.content|
  {
    FoldingTells(m);
    GroupedReads(|m.content|);
  }

  predicate Bulky(m: Message) {
    m.role == "tool" && |m.content| > BULKY_TOOL_CHARS
  }

  function Folded(messages: seq<Message>): (folded: seq<Message>)
    ensures |folded| == |messages|
  {
    seq(|messages|, i requires 0 <= i < |messages| =>
      if i < |messages| - 1 && Bulky(messages[i]) then FoldOne(messages[i]) else messages[i])
  }

  method FoldBulky(messages: seq<Message>) returns (out: seq<Message>)
    ensures out == Folded(messages)
  {
    out := messages;
    for i := 0 to if messages == [] then 0 else |messages| - 1
      invariant |out| == |messages|
      invariant forall j | 0 <= j < i :: out[j] == Folded(messages)[j]
      invariant forall j | i <= j < |messages| :: out[j] == messages[j]
    {
      if out[i].role == "tool" && |out[i].content| > BULKY_TOOL_CHARS {
        out := out[i := FoldOne(out[i])];
      }
    }
  }

  /** Positions whose content folding changed. */
  function CountFolds(folded: seq<Message>, messages: seq<Message>): nat
    requires |folded| == |messages|
  {
    if messages == [] then 0
    else (if folded[0].content != messages[0].content then 1 else 0) + CountFolds(folded[1..], messages[1..])
  }

  /** Of the first `n`, the tool outputs of more than 2,000 characters before the newest message whose
      body is not what folding makes of it already. */
  function Foldable(messages: seq<Message>, n: nat): nat
    requires n <= |messages|
  {
    if n == 0 then 0
    else
      var m := messages[n - 1];
      var folds := n < |messages| && m.role == "tool" && |m.content| > 2000 && m.content != FoldOne(m).content;
      Foldable(messages, n - 1) + if folds then 1 else 0
  }

  /** The folds that are told are those. */
  lemma FoldsAreCounted(messages: seq<Message>)
    ensures CountFolds(Folded(messages), messages) == Foldable(messages, |messages|)
  {
    FoldsUpTo(messages, |messages|);
    var f := Folded(messages);
    assert f[..|messages|] == f && messages[..|messages|] == messages;
  }

  lemma {:induction false} FoldsUpTo(messages: seq<Message>, n: nat)
    requires n <= |messages|
    ensures CountFolds(Folded(messages)[..n], messages[..n]) == Foldable(messages, n)
  {
    hide FoldOne;
    var f := Folded(messages);
    if n > 0 {
      FoldsUpTo(messages, n - 1);
      assert f[..n] == f[..n - 1] + [f[n - 1]] && messages[..n] == messages[..n - 1] + [messages[n - 1]];
      OneMoreFold(f[..n - 1], messages[..n - 1], f[n - 1], messages[n - 1]);
    }
  }

  lemma {:induction false} OneMoreFold(folded: seq<Message>, messages: seq<Message>, f: Message, m: Message)
    requires |folded| == |messages|
    ensures CountFolds(folded + [f], messages + [m]) ==
            CountFolds(folded, messages) + if f.content != m.content then 1 else 0
  {
    if messages != [] {
      assert (folded + [f])[1..] == folded[1..] + [f] && (messages + [m])[1..] == messages[1..] + [m];
      OneMoreFold(folded[1..], messages[1..], f, m);
    }
  }

  // ---- stage 2: the newest that fit ----

  /** The `k` newest. */
  function Newest(messages: seq<Message>, k: nat): seq<Message>
    requires k <= |messages|
  {
    messages[|messages| - k..]
  }

  /** Whether the newest fit two together, three together, and so on up to `n`. */
  ghost predicate FitUpTo(messages: seq<Message>, n: nat, budget: int, estimate: Estimator)
    requires n <= |messages|
  {
    forall k | 2 <= k <= n :: estimate(Newest(messages, k)) <= budget
  }

  /** How many of the newest are kept when `n` are: one more as long as they fit. */
  function KeptCount(messages: seq<Message>, n: nat, budget: int, estimate: Estimator): (k: nat)
    requires 1 <= n <= |messages|
    ensures n <= k <= |messages|
    ensures forall j | n < j <= k :: estimate(Newest(messages, j)) <= budget
    ensures k < |messages| ==> estimate(Newest(messages, k + 1)) > budget
    decreases |messages| - n
  {
    if n < |messages| && estimate(Newest(messages, n + 1)) <= budget
    then KeptCount(messages, n + 1, budget, estimate)
    else n
  }

  function NewestThatFit(messages: seq<Message>, budget: int, estimate: Estimator): seq<Message> {
    if messages == [] then [] else Newest(messages, KeptCount(messages, 1, budget, estimate))
  }

  /** The newest messages, one more at a time, as long as they fit; the newest in any case. */
  method KeepNewestThatFit(messages: seq<Message>, budget: int, estimate: Estimator) returns (kept: seq<Message>)
    ensures kept == NewestThatFit(messages, budget, estimate)
  {
    kept := [];
    var i := |messages|;
    while i > 0
      invariant 0 <= i <= |messages| && kept == messages[i..]
      invariant FitUpTo(messages, |messages| - i, budget, estimate)
      decreases i
    {
      var m := messages[i - 1];
      assert [m] + kept == messages[i - 1..] == Newest(messages, |messages| - i + 1);
      if kept != [] && !(estimate([m] + kept) <= budget) {
        break;
      }
      kept := [m] + kept;
      i := i - 1;
    }
    if messages != [] {
      KeptCountIs(messages, |kept|, budget, estimate);
    }
  }

  lemma {:induction false} CountFrom(messages: seq<Message>, from: nat, n: nat, budget: int, estimate: Estimator)
    requires 1 <= from <= n <= |messages| && FitUpTo(messages, n, budget, estimate)
    ensures KeptCount(messages, from, budget, estimate) == KeptCount(messages, n, budget, estimate)
    decreases n - from
  {
    if from < n {
      CountFrom(messages, from + 1, n, budget, estimate);
    }
  }

  lemma KeptCountIs(messages: seq<Message>, n: nat, budget: int, estimate: Estimator)
    requires 1 <= n <= |messages| && FitUpTo(messages, n, budget, estimate)
    requires n < |messages| ==> estimate(Newest(messages, n + 1)) > budget
    ensures KeptCount(messages, 1, budget, estimate) == n
  {
    CountFrom(messages, 1, n, budget, estimate);
  }

  // ---- the three stages ----

  function FirstUser(messages: seq<Message>): (i: nat)
    ensures i <= |messages|
    ensures i < |messages| ==> messages[i].role == "user"
    ensures forall j | 0 <= j < i :: messages[j].role != "user"
  {
    if messages == [] || messages[0].role == "user" then 0 else 1 + FirstUser(messages[1..])
  }

  /** The task, kept in front of the newest that fit beside it. */
  function TaskAndTail(folded: seq<Message>, budget: int, estimate: Estimator): seq<Message>
    requires FirstUser(folded) + 1 < |folded|
  {
    var task := [folded[FirstUser(folded)]];
    task + NewestThatFit(folded[1..], Max0(budget - estimate(task)), estimate)
  }

  predicate KeepsTask(folded: seq<Message>, budget: int, estimate: Estimator) {
    FirstUser(folded) + 1 < |folded| && estimate(TaskAndTail(folded, budget, estimate)) <= budget
  }

  function Reduced(messages: seq<Message>, budget: int, estimate: Estimator): ReductionResult {
    if messages == [] || estimate(messages) <= budget then ReductionResult(messages, Untouched, false, false)
    else
      var folded := Folded(messages);
      var n := CountFolds(folded, messages);
      if estimate(folded) <= budget then ReductionResult(folded, FoldedNote(n), true, true)
      else if KeepsTask(folded, budget, estimate) then
        var kept := TaskAndTail(folded, budget, estimate);
        ReductionResult(kept, DroppedNote(n, |folded| - |kept|), true, false)
      else ReductionResult([messages[|messages| - 1]], NewestOnly, true, false)
  }

  method Reduce(messages: seq<Message>, budget: int, estimate: Estimator) returns (result: ReductionResult)
    ensures result == Reduced(messages, budget, estimate)
  {
    hide Folded, CountFolds, NewestThatFit, FirstUser;
    if messages == [] || estimate(messages) <= budget {
      return ReductionResult(messages, Untouched, false, false);
    }
    var folded := FoldBulky(messages);
    var n := CountFolds(folded, messages);
    if estimate(folded) <= budget {
      return ReductionResult(folded, FoldedNote(n), true, true);
    }
    var first := FirstUser(folded);
    if first < |folded| && first != |folded| - 1 {
      var task := folded[first];
      var tail := KeepNewestThatFit(folded[1..], Max0(budget - estimate([task])), estimate);
      var kept := [task] + tail;
      if estimate(kept) <= budget {
        return ReductionResult(kept, DroppedNote(n, |folded| - |kept|), true, false);
      }
    }
    return ReductionResult([messages[|messages| - 1]], NewestOnly, true, false);
  }

  // ---- what every reduction keeps, whatever the estimator ----

  lemma NewestIsLast(messages: seq<Message>, budget: int, estimate: Estimator)
    requires messages != []
    ensures var kept := NewestThatFit(messages, budget, estimate);
            kept != [] && kept[|kept| - 1] == messages[|messages| - 1]
  {
  }

  /** The two invariants of every policy: the newest message survives, and a thread that fits is
      returned untouched. What comes back fits, or is that one message and does not. */
  lemma NewestSurvives(messages: seq<Message>, budget: int, estimate: Estimator)
    requires messages != []
    ensures var r := Reduced(messages, budget, estimate);
            && r.messages != [] && r.messages[|r.messages| - 1] == messages[|messages| - 1]
            && (estimate(r.messages) <= budget || r.messages == [messages[|messages| - 1]])
            && (r.changed <==> estimate(messages) > budget)
            && (!r.changed ==> r == ReductionResult(messages, Untouched, false, false))
  {
    hide NewestThatFit, KeptCount, FitUpTo, CountFolds;
    var folded := Folded(messages);
    if FirstUser(folded) + 1 < |folded| {
      var task := [folded[FirstUser(folded)]];
      NewestIsLast(folded[1..], Max0(budget - estimate(task)), estimate);
    }
  }

  /** Reducing what was reduced gives up nothing more. */
  lemma ReducingTwice(messages: seq<Message>, budget: int, estimate: Estimator)
    ensures var once := Reduced(messages, budget, estimate).messages;
            Reduced(once, budget, estimate).messages == once
  {
    if messages != [] {
      NewestSurvives(messages, budget, estimate);
      var once := Reduced(messages, budget, estimate).messages;
      NewestSurvives(once, budget, estimate);
      if estimate(once) > budget {
        assert once == [messages[|messages| - 1]];
        assert Folded(once) == once;
      }
    }
  }

  /** A thread comes back as it was, and is said to be changed, exactly when it is one message that does
      not fit; that message is then said to be all that is left. */
  lemma LoneMessageReadsAsChanged(messages: seq<Message>, budget: int, estimate: Estimator)
    requires messages != []
    ensures var r := Reduced(messages, budget, estimate);
            && (r.changed && r.messages == messages <==> |messages| == 1 && estimate(messages) > budget)
            && (r.changed && r.messages == messages ==> r == ReductionResult(messages, NewestOnly, true, false))
  {
    NewestSurvives(messages, budget, estimate);
    if |messages| == 1 {
      assert Folded(messages) == messages;
    }
  }

  /** Folding changes only bulky tool outputs, never the newest message or a user's. Of one it changes a
      dict's body is all that goes; of a persisted message whatever is neither its role nor the tool's call
      goes as well. */
  lemma FoldingIsShallow(messages: seq<Message>, i: nat)
    requires i < |messages|
    ensures var f := Folded(messages);
            && |f| == |messages|
            && f[i].Kept() == messages[i].Kept()
            && (f[i] != messages[i] ==> Bulky(messages[i]) && i != |messages| - 1 && (f[i].isDict || f[i].rest == ""))
            && (f[i].rest != messages[i].rest <==>
                  i < |messages| - 1 && Bulky(messages[i]) && !messages[i].isDict && messages[i].rest != "")
            && FirstUser(f) == FirstUser(messages)
  {
    FirstUserIs(Folded(messages), FirstUser(messages));
  }

  /** When folding alone is enough every message is still there, with what folding keeps of it, and the
      result says it lost nothing; it says so in no other case. */
  lemma FoldingAloneLosesNothing(messages: seq<Message>, budget: int, estimate: Estimator)
    requires estimate(messages) > budget && messages != []
    ensures var r := Reduced(messages, budget, estimate);
            && (r.lossless <==> estimate(Folded(messages)) <= budget)
            && (r.lossless ==>
                  && r.note == FoldedNote(Foldable(messages, |messages|))
                  && |r.messages| == |messages|
                  && (forall i | 0 <= i < |messages| :: r.messages[i].Kept() == messages[i].Kept())
                  && (forall i | 0 <= i < |messages| :: r.messages[i] != messages[i] ==> Bulky(messages[i])))
  {
    FoldsAreCounted(messages);
    forall i | 0 <= i < |messages|
      ensures Folded(messages)[i].Kept() == messages[i].Kept()
      ensures Folded(messages)[i] != messages[i] ==> Bulky(messages[i])
    {
      FoldingIsShallow(messages, i);
    }
  }

  lemma FirstUserIs(messages: seq<Message>, i: nat)
    requires i <= |messages| && (i < |messages| ==> messages[i].role == "user")
    requires forall j | 0 <= j < i :: messages[j].role != "user"
    ensures FirstUser(messages) == i
  {
  }

  // ---- what is given up, for an estimator that sums over messages ----

  ghost predicate Additive(estimate: Estimator) {
    && (forall a, b :: estimate(a + b) == estimate(a) + estimate(b))
    && (forall a :: estimate(a) >= 0)
  }

  lemma Sums(estimate: Estimator, a: seq<Message>, b: seq<Message>)
    requires Additive(estimate)
    ensures estimate(a + b) == estimate(a) + estimate(b) && estimate(a) >= 0 && estimate(b) >= 0
  {
  }

  /** No longer run of newest messages fits than the one kept. */
  lemma NewestIsLongest(messages: seq<Message>, budget: int, estimate: Estimator, k: nat)
    requires Additive(estimate) && messages != []
    requires |NewestThatFit(messages, budget, estimate)| < k <= |messages|
    ensures estimate(Newest(messages, k)) > budget
  {
    hide Additive;
    var n := |NewestThatFit(messages, budget, estimate)|;
    Sums(estimate, messages[|messages| - k..|messages| - n - 1], Newest(messages, n + 1));
    assert Newest(messages, k) == messages[|messages| - k..|messages| - n - 1] + Newest(messages, n + 1);
  }

  /** What stands behind the task: the newest message in any case, within `left` when that one is,
      and then the longest run that is. */
  lemma TailBesideTask(f: seq<Message>, left: int, estimate: Estimator)
    requires Additive(estimate) && |f| >= 2
    ensures var tail := NewestThatFit(f[1..], Max0(left), estimate);
            && 1 <= |tail| < |f| && tail == Newest(f, |tail|)
            && estimate(tail) >= estimate(Newest(f, 1))
            && (estimate(Newest(f, 1)) <= left ==> estimate(tail) <= left)
            && (left >= 0 ==> forall j | |tail| < j < |f| :: estimate(Newest(f, j)) > left)
  {
    hide Additive, KeptCount;
    var rest := f[1..];
    var tail := NewestThatFit(rest, Max0(left), estimate);
    assert forall j: nat | j < |f| :: Newest(f, j) == Newest(rest, j);
    assert tail == tail[..|tail| - 1] + Newest(f, 1);
    Sums(estimate, tail[..|tail| - 1], Newest(f, 1));
    forall j | |tail| < j < |f| && left >= 0
      ensures estimate(Newest(f, j)) > left
    {
      NewestIsLongest(rest, left, estimate, j);
    }
  }

  lemma FoldsInPlace(messages: seq<Message>)
    requires messages != []
    ensures var f, n := Folded(messages), |messages|;
            |f| == n && f[n - 1] == messages[n - 1] && (messages[0].role == "user" ==> f[0] == messages[0])
  {
  }

  /** With the opening message the user's, it is kept exactly when it fits beside the newest one, and
      then beside the longest run of newest messages that fits. */
  lemma OpeningRequestIsKept(messages: seq<Message>, budget: int, estimate: Estimator)
    requires Additive(estimate) && |messages| >= 2 && messages[0].role == "user"
    requires estimate(messages) > budget && estimate(Folded(messages)) > budget
    ensures var r, n, f := Reduced(messages, budget, estimate), |messages|, Folded(messages);
            if estimate([messages[0]]) + estimate([messages[n - 1]]) <= budget then
              var k := |r.messages| - 1;
              && 1 <= k < n - 1
              && r.messages == [messages[0]] + Newest(f, k)
              && estimate(r.messages) <= budget
              && (forall j | k < j < n :: estimate([messages[0]]) + estimate(Newest(f, j)) > budget)
              && r.note == DroppedNote(CountFolds(f, messages), n - 1 - k)
            else r.messages == [messages[n - 1]]
  {
    hide Additive, NewestThatFit, CountFolds, Folded;
    FoldingIsShallow(messages, 0);
    FoldingIsShallow(messages, |messages| - 1);
    FoldsInPlace(messages);
    var f, n := Folded(messages), |messages|;
    var task, left := [f[0]], budget - estimate([messages[0]]);
    FirstUserIs(f, 0);
    assert f[0] == messages[0] && Newest(f, 1) == [messages[n - 1]];
    var tail := NewestThatFit(f[1..], Max0(left), estimate);
    TailBesideTask(f, left, estimate);
    assert TaskAndTail(f, budget, estimate) == task + tail;
    Sums(estimate, task, tail);
    assert |tail| == n - 1 ==> task + tail == f;
  }

  /** The positions of the thread that a stage-2 result takes its messages from: the task's, then the
      tail's. */
  function Positions(folded: seq<Message>, budget: int, estimate: Estimator): (ps: seq<nat>)
    requires FirstUser(folded) + 1 < |folded|
  {
    var k := TailLength(folded, budget, estimate);
    [FirstUser(folded)] + seq(k, i requires 0 <= i < k => |folded| - k + i)
  }

  function TailLength(folded: seq<Message>, budget: int, estimate: Estimator): (k: nat)
    requires FirstUser(folded) + 1 < |folded|
    ensures 1 <= k < |folded|
  {
    TailIsNewest(folded, budget, estimate);
    |TaskAndTail(folded, budget, estimate)| - 1
  }

  lemma TailIsNewest(folded: seq<Message>, budget: int, estimate: Estimator)
    requires FirstUser(folded) + 1 < |folded|
    ensures var k := |TaskAndTail(folded, budget, estimate)| - 1;
            1 <= k < |folded| && TaskAndTail(folded, budget, estimate) == [folded[FirstUser(folded)]] + Newest(folded, k)
  {
    hide KeptCount, FirstUser, Newest;
    var task, rest := [folded[FirstUser(folded)]], folded[1..];
    var n := KeptCount(rest, 1, Max0(budget - estimate(task)), estimate);
    NewestOfRest(folded, n);
    assert TaskAndTail(folded, budget, estimate) == task + Newest(folded, n);
  }

  lemma NewestOfRest(messages: seq<Message>, n: nat)
    requires 1 <= n < |messages|
    ensures |Newest(messages, n)| == n && Newest(messages[1..], n) == Newest(messages, n)
  {
  }

  lemma PositionsAreTaken(folded: seq<Message>, budget: int, estimate: Estimator, i: nat)
    requires FirstUser(folded) + 1 < |folded| && i < |TaskAndTail(folded, budget, estimate)|
    ensures var ps := Positions(folded, budget, estimate);
            && |ps| == |TaskAndTail(folded, budget, estimate)| && ps[i] < |folded|
            && folded[ps[i]] == TaskAndTail(folded, budget, estimate)[i]
  {
    hide TaskAndTail;
    TailIsNewest(folded, budget, estimate);
  }

  ghost predicate Increasing(ps: seq<nat>) {
    forall i, j | 0 <= i < j < |ps| :: ps[i] < ps[j]
  }

  /** The result is a part of the thread, in order, unless the first user message is not the opening
      one and everything from it on fits with room for it a second time: then it stands in front and
      again in the tail. */
  lemma TaskIsRepeated(folded: seq<Message>, budget: int, estimate: Estimator)
    requires Additive(estimate) && KeepsTask(folded, budget, estimate)
    ensures var t := FirstUser(folded);
            Increasing(Positions(folded, budget, estimate)) <==>
            !(t > 0 && estimate([folded[t]]) + estimate(folded[t..]) <= budget)
  {
    hide Additive, NewestThatFit, Positions;
    var t, n := FirstUser(folded), |folded|;
    var task := [folded[t]];
    var left := budget - estimate(task);
    var tail := NewestThatFit(folded[1..], Max0(left), estimate);
    assert TaskAndTail(folded, budget, estimate) == task + tail;
    Sums(estimate, task, tail);
    TailBesideTask(folded, left, estimate);
    PositionsIncrease(folded, budget, estimate);
    assert Newest(folded, n - t) == folded[t..];
    if t > 0 && n - |tail| <= t {
      Sums(estimate, folded[n - |tail|..t], folded[t..]);
      assert tail == folded[n - |tail|..t] + folded[t..];
    }
  }

  lemma PositionsIncrease(folded: seq<Message>, budget: int, estimate: Estimator)
    requires FirstUser(folded) + 1 < |folded|
    ensures var k := |TaskAndTail(folded, budget, estimate)| - 1;
            k >= 1 && (Increasing(Positions(folded, budget, estimate)) <==> FirstUser(folded) < |folded| - k)
  {
    hide TaskAndTail;
    var ps, k := Positions(folded, budget, estimate), TailLength(folded, budget, estimate);
    assert k == |TaskAndTail(folded, budget, estimate)| - 1;
    assert |ps| == k + 1 && ps[0] == FirstUser(folded) && ps[1] == |folded| - k;
  }

  /** A sum over messages: five for a user's, ten for anyone else's. */
  function Weight(ms: seq<Message>): int {
    if ms == [] then 0 else (if ms[0].role == "user" then 5 else 10) + Weight(ms[1..])
  }

  /** One such thread: the request is sent twice over, the message before it is gone, and none is
      said to be dropped. */
  lemma RepeatedTask(a: Message, u: Message)
    requires a.role == "assistant" && u.role == "user"
    ensures Reduced([a, u, u], 15, Weight) == ReductionResult([u, u, u], DroppedNote(0, 0), true, false)
  {
    var ms, two := [a, u, u], [u, u];
    assert ms[1..] == two && two[1..] == [u] && [u][1..] == [];
    assert Weight([u]) == 5 && Weight(two) == 10 && Weight(ms) == 20;
    FirstUserIs(ms, 1);
    assert Newest(two, 2) == two;
    KeptCountIs(two, 2, 10, Weight);
    assert TaskAndTail(ms, 15, Weight) == [u] + two;
    var three := [u] + two;
    assert three[1..] == two && Weight(three) == 15;
    assert three == [u, u, u];
    FoldsNothing(ms);
  }

  lemma {:induction false} FoldsNothing(ms: seq<Message>)
    requires forall m | m in ms :: !Bulky(m)
    ensures Folded(ms) == ms && CountFolds(ms, ms) == 0
  {
    if ms != [] {
      assert forall m | m in ms[1..] :: m in ms;
      FoldsNothing(ms[1..]);
    }
  }
}
