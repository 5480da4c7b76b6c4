/**
 The timed waits of an errand: what the site file waits with (`Helpers`), and waiting for the person.

 Everything outside is a script that may say anything: what each call costs, what the page and the
 person answer, and when the line to the server fails. A sleep takes at least its second, and a call
 at most `slack` beyond that. Times are seconds.
 */
module Waits {
  import opened Wrappers

  const RENEW_S := 20.0

  datatype Reply = Yes | No | Raises

  /** How a wait ends: it returns, its limit comes, the server cannot be told, or the page fails. */
  datatype Waited = Returned | TimedOut | ServerLine | Failed

  datatype Sample = Sample(at: real, text: string)

  datatype Act = Asked(reply: Reply) | Showed | Noted(note: string) | Slept

  /** Turns of a wait: each asks and is answered `hold`, tells the card `note` or not, and sleeps. */
  predicate AreTurns(acts: seq<Act>, hold: Reply, note: string)
    decreases |acts|
  {
    acts == [] ||
    (acts[|acts| - 1] == Slept &&
     var before := acts[..|acts| - 1];
     var asked := if before != [] && before[|before| - 1] == Noted(note) then before[..|before| - 1] else before;
     asked != [] && asked[|asked| - 1] == Asked(hold) && AreTurns(asked[..|asked| - 1], hold, note))
  }

  /** Turns, and one more answer. */
  predicate Waiting(acts: seq<Act>, before: seq<Act>, turns: seq<Act>, hold: Reply, note: string, reply: Reply) {
    acts == before + turns + [Asked(reply)] && AreTurns(turns, hold, note)
  }

  lemma WaitingIs(acts: seq<Act>, before: seq<Act>, turns: seq<Act>, hold: Reply, note: string, reply: Reply)
    requires Waiting(acts, before, turns, hold, note, reply)
    ensures acts == before + turns + [Asked(reply)] && AreTurns(turns, hold, note)
  {
  }

  lemma TurnIs(turn: seq<Act>, note: string)
    requires turn == [Slept] || turn == [Noted(note), Slept]
    ensures IsTurn(turn, note)
  {
  }

  lemma NoTurns(hold: Reply, note: string)
    ensures AreTurns([], hold, note)
  {
  }

  lemma WaitingBegins(before: seq<Act>, hold: Reply, note: string, reply: Reply)
    ensures Waiting(before + [Asked(reply)], before, [], hold, note, reply)
  {
  }

  /** What a turn adds: the card is told or not. */
  predicate IsTurn(acts: seq<Act>, note: string) {
    acts == [Slept] || acts == [Noted(note), Slept]
  }

  lemma WaitingGoesOn(acts: seq<Act>, before: seq<Act>, turns: seq<Act>, hold: Reply, note: string, turn: seq<Act>, reply: Reply)
    requires Waiting(acts, before, turns, hold, note, hold) && IsTurn(turn, note)
    ensures Waiting(acts + turn + [Asked(reply)], before, turns + [Asked(hold)] + turn, hold, note, reply)
  {
    hide AreTurns;
    assert acts + turn + [Asked(reply)] == before + (turns + [Asked(hold)] + turn) + [Asked(reply)];
    if turn == [Slept] {
      TurnAsked(turns, hold, note);
    } else {
      TurnNoted(turns, hold, note);
      assert turns + [Asked(hold)] + [Noted(note), Slept] == turns + [Asked(hold)] + [Noted(note)] + [Slept];
    }
  }

  lemma TurnAsked(turns: seq<Act>, hold: Reply, note: string)
    requires AreTurns(turns, hold, note)
    ensures AreTurns(turns + [Asked(hold)] + [Slept], hold, note)
  {
    var asked := turns + [Asked(hold)];
    assert (asked + [Slept])[..|asked|] == asked && asked[..|turns|] == turns;
    assert asked[|turns|] != Noted(note);
  }

  lemma TurnNoted(turns: seq<Act>, hold: Reply, note: string)
    requires AreTurns(turns, hold, note)
    ensures AreTurns(turns + [Asked(hold)] + [Noted(note)] + [Slept], hold, note)
  {
    var asked := turns + [Asked(hold)];
    var noted := asked + [Noted(note)];
    assert (noted + [Slept])[..|noted|] == noted && noted[..|asked|] == asked && asked[..|turns|] == turns;
  }

  function Max(a: real, b: real): real {
    if a < b then b else a
  }

  /** Successive renewals from number `from` on are at most `bound` apart. */
  ghost predicate GapsWithin(told: seq<real>, from: nat, bound: real)
    requires from >= 1
  {
    forall i | from <= i < |told| :: told[i] - told[i - 1] <= bound
  }

  /** Turns of at least a second left before `limit`. */
  function TurnsLeft(now: real, limit: real): nat {
    if now < limit then (limit - now).Floor + 1 else 0
  }

  class ErrandContext {
    const slack: real
    const cost: nat -> real
    const reply: nat -> Reply
    const text: nat -> string
    const lineUp: nat -> bool
    var now: real
    var calls: nat
    /** When the claim was renewed: first by the claim itself, then by each note that arrived. */
    var told: seq<real>
    var notes: seq<string>
    /** The page's texts seen. */
    ghost var samples: seq<Sample>
    /** What was asked and answered, shown, told and slept, in order. */
    ghost var acts: seq<Act>

    ghost predicate Valid()
      reads this
    {
      && (forall n: nat :: 0.0 <= cost(n) <= slack)
      && |told| == |notes| >= 1 && told[|told| - 1] <= now
    }

    ghost function LastTold(): real
      requires |told| >= 1
      reads this
    {
      told[|told| - 1]
    }

    /** A call of the outside: it takes its time. */
    method Spend(least: real)
      requires Valid() && least >= 0.0
      modifies this`now, this`calls
      ensures Valid() && calls == old(calls) + 1
      ensures old(now) + least <= now <= old(now) + least + slack && now == old(now) + least + cost(old(calls))
    {
      now := now + least + cost(calls);
      calls := calls + 1;
    }

    method Clock() returns (t: real)
      requires Valid()
      modifies this`now, this`calls
      ensures Valid() && t == now && old(now) <= now <= old(now) + slack && calls == old(calls) + 1
    {
      Spend(0.0);
      t := now;
    }

    method Sleep()
      requires Valid()
      modifies this`now, this`calls, this`acts
      ensures acts == old(acts) + [Slept]
      ensures Valid() && old(now) + 1.0 <= now <= old(now) + 1.0 + slack && calls == old(calls) + 1
    {
      Spend(1.0);
      acts := acts + [Slept];
    }

    /** Bringing the window forward. */
    method Show() returns (ok: bool)
      requires Valid()
      modifies this`now, this`calls, this`acts
      ensures Valid() && old(now) <= now <= old(now) + slack && calls == old(calls) + 1
      ensures ok == (reply(old(calls)) != Raises) && acts == old(acts) + [Showed]
    {
      Spend(0.0);
      ok := reply(calls - 1) != Raises;
      acts := acts + [Showed];
    }

    /** Asking the page or the person. */
    method Ask() returns (r: Reply)
      requires Valid()
      modifies this`now, this`calls, this`acts
      ensures acts == old(acts) + [Asked(r)]
      ensures Valid() && old(now) <= now <= old(now) + slack && r == reply(old(calls)) && calls == old(calls) + 1
      ensures now == old(now) + cost(old(calls))
    {
      Spend(0.0);
      r := reply(calls - 1);
      acts := acts + [Asked(r)];
    }

    /** Reading the page's text. */
    method Evaluate() returns (s: Sample, r: Reply)
      requires Valid()
      modifies this`now, this`calls, this`samples
      ensures samples == old(samples) + [s] && calls == old(calls) + 1
      ensures Valid() && old(now) <= now <= old(now) + slack && s.at == now && r == reply(old(calls))
      ensures s.text == text(old(calls))
    {
      Spend(0.0);
      r := reply(calls - 1);
      s := Sample(now, text(calls - 1));
      samples := samples + [s];
    }

    /** Telling the card, which renews the claim when the line is up. */
    method Note(note: string) returns (arrived: bool)
      requires Valid()
      modifies this`now, this`calls, this`told, this`notes, this`acts
      ensures calls == old(calls) + 1 && arrived == lineUp(old(calls))
      ensures Valid() && old(now) <= now <= old(now) + slack
      ensures arrived ==> told == old(told) + [now] && notes == old(notes) + [note] && acts == old(acts) + [Noted(note)]
      ensures !arrived ==> told == old(told) && notes == old(notes) && acts == old(acts)
    {
      Spend(0.0);
      arrived := lineUp(calls - 1);
      if arrived {
        told, notes, acts := told + [now], notes + [note], acts + [Noted(note)];
      }
    }

    /** One turn of a wait: fail at `limit`, renew the claim when it is due, sleep. */
    method Turn(limit: real, renewAt: real, note: string) returns (end: Option<Waited>, next: real)
      requires Valid()
      modifies this`now, this`calls, this`told, this`notes, this`acts
      ensures end == Some(ServerLine) ==> LineFailed()
      ensures Valid() && old(now) <= now <= old(now) + 1.0 + 3.0 * slack
      ensures (told == old(told) && notes == old(notes) && next == renewAt) || Renewed(old(told), old(now), next)
      ensures end.Some? ==> now <= old(now) + 2.0 * slack && told == old(told) && next == renewAt && acts == old(acts)
      ensures end == Some(TimedOut) ==> now >= limit
      // the card is told only when that is due
      ensures end == None ==> acts == old(acts) + if told == old(told) then [Slept] else [Noted(note), Slept]
      ensures told != old(told) ==> LastTold() >= renewAt
      ensures end == None ==> old(now) + 1.0 <= now < limit + 1.0 + 2.0 * slack && old(now) < limit
      ensures end == None ==> now < next + 1.0 + 2.0 * slack
      ensures end in {None, Some(TimedOut), Some(ServerLine)} && calls > old(calls)
    {
      var t := Clock();
      next := renewAt;
      if t >= limit {
        return Some(TimedOut), next;
      }
      if t >= renewAt {
        var arrived := Note(note);
        if !arrived {
          return Some(ServerLine), next;
        }
        next := t + RENEW_S;
      }
      Sleep();
      end := None;
    }

    /** The last call was a note that did not arrive; or asked or read the page, which failed. */
    ghost predicate LineFailed()
      reads this
    {
      calls > 0 && !lineUp(calls - 1)
    }

    ghost predicate PageFailed()
      reads this
    {
      calls > 0 && reply(calls - 1) == Raises
    }

    /** Since call number `from` the page or the person has answered `r`. */
    ghost predicate Answered(from: nat, r: Reply)
      reads this
    {
      exists n: nat :: from <= n < calls && reply(n) == r
    }

    /** The card was told what is waited for, and last that nothing is. */
    ghost predicate Cleared(before: seq<real>)
      requires |told| == |notes|
      reads this
    {
      |told| >= |before| + 2 && notes[|notes| - 1] == ""
    }

    /** One renewal has come on top of those of `before`, within two calls of `since`, and `next` is
        when the one after it is due. */
    ghost predicate Renewed(before: seq<real>, since: real, next: real)
      requires |told| >= 1
      reads this
    {
      told == before + [LastTold()] && since <= LastTold() <= since + 2.0 * slack && next <= LastTold() + RENEW_S
    }

    /** While `blocked`, brings the window forward and waits for the person to clear it. */
    method WaitForPerson(timeout: real) returns (end: Waited, ghost turns: seq<Act>)
      requires Valid()
      modifies this`now, this`calls, this`told, this`notes, this`acts
      ensures (end.ServerLine? ==> LineFailed()) && (end.Failed? ==> PageFailed())
      ensures Valid() && old(told) <= told && now >= old(now)
      // from the first note on, the claim is renewed in time
      ensures GapsWithin(told, |old(told)| + 1, RENEW_S + 1.0 + 7.0 * slack)
      ensures |told| > |old(told)| ==> told[|old(told)|] <= old(now) + 3.0 * slack && now <= LastTold() + RENEW_S + 1.0 + 7.0 * slack
      // cleared: nothing is in the way, and the card is told so unless nothing ever was
      ensures end.Returned? ==> Answered(old(calls), No) && (told == old(told) || Cleared(old(told)))
      // asked once before and once each turn; shown and told first, and at the end
      ensures AreTurns(turns, Yes, "captcha")
      ensures end.Returned? ==> acts == old(acts) + [Asked(No)]
                                || acts == old(acts) + PERSON + turns + [Asked(No)] + [Noted("")]
      ensures end.TimedOut? ==> acts == old(acts) + PERSON + turns + [Asked(Yes)]
      ensures end.TimedOut? ==> now >= old(now) + timeout
      ensures now <= old(now) + Max(0.0, timeout) + 1.0 + 10.0 * slack
    {
      hide GapsWithin, AreTurns;
      GapsNone(told, RENEW_S + 1.0 + 7.0 * slack);
      turns := [];
      NoTurns(Yes, "captcha");
      ghost var before := acts;
      var r := Ask();
      if !r.Yes? {
        end := if r.No? then Returned else Failed;
        return;
      }
      var shown := Show();
      if !shown {
        end := Failed;
        return;
      }
      var arrived := Note("captcha");
      if !arrived {
        end := ServerLine;
        return;
      }
      assert acts == before + PERSON;
      end, turns := AwaitPerson(timeout);
    }

    /** A person is needed: asked, shown, told. */
    static const PERSON: seq<Act> := [Asked(Yes), Showed, Noted("captcha")]

    method AwaitPerson(timeout: real) returns (end: Waited, ghost turns: seq<Act>)
      requires Valid() && LastTold() == now
      modifies this`now, this`calls, this`told, this`notes, this`acts
      ensures Valid() && old(told) <= told && now >= old(now)
      ensures (end.ServerLine? ==> LineFailed()) && (end.Failed? ==> PageFailed())
      ensures GapsWithin(told, |old(told)|, RENEW_S + 1.0 + 7.0 * slack)
      ensures now <= LastTold() + RENEW_S + 1.0 + 7.0 * slack
      ensures calls > old(calls)
      ensures end.Returned? ==> notes[|notes| - 1] == "" && |told| > |old(told)| && Answered(old(calls), No)
      ensures AreTurns(turns, Yes, "captcha")
      ensures end.Returned? ==> acts == old(acts) + turns + [Asked(No)] + [Noted("")]
      ensures end.TimedOut? ==> acts == old(acts) + turns + [Asked(Yes)]
      ensures end.TimedOut? ==> now >= old(now) + timeout
      ensures now <= old(now) + Max(0.0, timeout) + 1.0 + 7.0 * slack
    {
      hide GapsWithin, AreTurns;
      ghost var first := told;
      var start := Clock();
      end, turns := HoldOn(start + timeout, start + RENEW_S, "captcha", Yes, first);
      if end.Returned? {
        ghost var held := told;
        var arrived := Note("");
        GapsGrow(held, told, |first|, RENEW_S + 1.0 + 7.0 * slack);
        if !arrived {
          end := ServerLine;
        }
      }
    }

    /** Turns as long as the answer is `hold`; the claim was renewed last, `first` with it, just now. */
    method HoldOn(limit: real, due: real, note: string, hold: Reply, ghost first: seq<real>)
      returns (end: Waited, ghost turns: seq<Act>)
      requires Valid() && first == told && |first| >= 1
      requires now <= due <= LastTold() + RENEW_S + slack
      modifies this`now, this`calls, this`told, this`notes, this`acts
      ensures (end.ServerLine? ==> LineFailed()) && (end.Failed? ==> PageFailed())
      ensures calls > old(calls) && (end.Returned? ==> reply(calls - 1) !in {hold, Raises})
      ensures AreTurns(turns, hold, note)
      ensures end.Returned? ==> acts == old(acts) + turns + [Asked(reply(calls - 1))]
      ensures end.TimedOut? ==> acts == old(acts) + turns + [Asked(hold)]
      ensures Valid() && first <= told && now >= old(now)
      ensures GapsWithin(told, |first|, RENEW_S + 1.0 + 7.0 * slack)
      ensures LastTold() + RENEW_S + 1.0 + 6.0 * slack > now && LastTold() >= old(LastTold())
      ensures end.TimedOut? ==> now >= limit
      ensures now <= Max(old(now), limit) + 1.0 + 5.0 * slack
      ensures end.Returned? ==> now <= Max(old(now), limit) + 1.0 + 3.0 * slack
      ensures end in {Returned, TimedOut, ServerLine, Failed}
    {
      hide TurnsLeft, GapsWithin, Max, LineFailed, AreTurns, Waiting, IsTurn;
      MaxIs(now, limit);
      ghost var before := acts;
      turns := [];
      ghost var latest := Max(now, limit);
      GapsNone(told, RENEW_S + 1.0 + 7.0 * slack);
      var renewAt := due;
      ghost var asked := calls;
      var r := Ask();
      WaitingBegins(before, hold, note, r);
      while r == hold
        invariant Waiting(acts, before, turns, hold, note, r)
        invariant Valid() && first <= told && now >= old(now) && LastTold() >= old(LastTold())
        invariant renewAt <= LastTold() + RENEW_S + slack
        invariant now < renewAt + 1.0 + 3.0 * slack
        invariant now <= latest + 1.0 + 3.0 * slack
        invariant GapsWithin(told, |first|, RENEW_S + 1.0 + 7.0 * slack)
        invariant calls > asked && r == reply(calls - 1)
        decreases TurnsLeft(now, limit)
      {
        ghost var turn, waited := now, acts;
        var out;
        ghost var added;
        out, renewAt, r, added := TurnAndAsk(limit, renewAt, note, first);
        if out.Some? {
          WaitingIs(acts, before, turns, hold, note, hold);
          return out.value, turns;
        }
        WaitingGoesOn(waited, before, turns, hold, note, added, r);
        turns := turns + [Asked(hold)] + added;
        TurnTaken(turn, now, limit);
      }
      WaitingIs(acts, before, turns, hold, note, r);
      end := if r.Raises? then Failed else Returned;
    }

    method TurnAndAsk(limit: real, due: real, note: string, ghost first: seq<real>)
      returns (out: Option<Waited>, renewAt: real, r: Reply, ghost turn: seq<Act>)
      requires Valid() && 1 <= |first| && first <= told && GapsWithin(told, |first|, RENEW_S + 1.0 + 7.0 * slack)
      requires due <= LastTold() + RENEW_S + slack && now < due + 1.0 + 3.0 * slack
      modifies this`now, this`calls, this`told, this`notes, this`acts
      ensures Valid() && first <= told && GapsWithin(told, |first|, RENEW_S + 1.0 + 7.0 * slack)
      ensures LastTold() >= old(LastTold()) && renewAt <= LastTold() + RENEW_S + slack
      ensures now >= old(now) && calls > old(calls)
      ensures out.Some? ==> now <= old(now) + 2.0 * slack && renewAt == due && LastTold() == old(LastTold())
      ensures out == None ==> old(now) < limit && old(now) + 1.0 <= now < limit + 1.0 + 3.0 * slack
      ensures out == None ==> now < renewAt + 1.0 + 3.0 * slack && r == reply(calls - 1)
      ensures if out == None then IsTurn(turn, note) && acts == old(acts) + turn + [Asked(r)] else acts == old(acts)
      ensures (out == Some(TimedOut) ==> now >= limit) && (out == Some(ServerLine) ==> LineFailed())
      ensures out in {None, Some(TimedOut), Some(ServerLine)}
    {
      hide GapsWithin;
      ghost var before := told;
      r := No;
      out, renewAt := Turn(limit, due, note);
      turn := if told == before then [Slept] else [Noted(note), Slept];
      GapsGrow(before, told, |first|, RENEW_S + 1.0 + 7.0 * slack);
      if out == None {
        r := Ask();
      }
    }
  }

  /** `h`: the waits a site file uses. */
  class Helpers {
    const ctx: ErrandContext
    const timeout: real
    var deadline: real
    var renewAt: real
    /** When these waits began, and how long signing in has taken since. */
    ghost var created: real
    ghost var signingIn: real

    ghost predicate Valid()
      reads this, ctx
    {
      ctx.Valid() && deadline == created + timeout + signingIn && signingIn >= 0.0
    }

    /** How long after the last renewal its clock was set, beyond the two calls that takes. */
    ghost function Slip(): (t: real)
      requires Valid()
      reads this, ctx
      ensures t >= 0.0
    {
      Max(0.0, renewAt - RENEW_S - ctx.LastTold() - 2.0 * ctx.slack)
    }

    /** How long ago the last renewal was, beyond what a turn of waiting accounts for. */
    ghost function Late(): (t: real)
      requires Valid()
      reads this, ctx
      ensures t >= 0.0
    {
      Max(0.0, ctx.now - ctx.LastTold() - RENEW_S - 1.0 - 4.0 * ctx.slack - Slip())
    }

    /** How far the renewals have fallen behind what a turn accounts for. */
    ghost function Behind(): real
      requires Valid()
      reads this, ctx
    {
      Slip() + Late()
    }

    constructor (ctx: ErrandContext, timeout: real)
      requires ctx.Valid()
      modifies ctx`now, ctx`calls
      ensures Valid() && this.ctx == ctx && this.timeout == timeout && signingIn == 0.0
      ensures old(ctx.now) <= created <= ctx.now <= old(ctx.now) + 2.0 * ctx.slack
      ensures Behind() <= ctx.now - ctx.LastTold()
    {
      this.ctx, this.timeout := ctx, timeout;
      new;
      var t := this.ctx.Clock();
      deadline := t + timeout;
      created, signingIn := t, 0.0;
      t := this.ctx.Clock();
      renewAt := t + RENEW_S;
    }

    /** What holds of every wait, whatever comes of it: the gap before each renewal it makes is at
        most `RENEW_S` and a turn, a second and at most nine calls, beyond what was behind before. A wait
        that slept, or told the card, leaves nothing behind of what came before it; one that did not took
        at most five calls. */
    twostate predicate Kept(slept: bool)
      requires old(Valid())
      reads this, ctx
    {
      && Valid() && created == old(created) && old(ctx.told) <= ctx.told && old(ctx.now) <= ctx.now
      && GapsWithin(ctx.told, |old(ctx.told)|, Gap(ctx.slack, old(Behind())))
      && Behind() <= old(Behind()) + 5.0 * ctx.slack
      && Slip() <= old(Slip())
      && (if slept then Behind() <= old(Slip()) + 5.0 * ctx.slack else ctx.now - old(ctx.now) <= 5.0 * ctx.slack)
      && (slept ==> ctx.now >= old(ctx.now) + 1.0 || |ctx.told| > |old(ctx.told)|)
    }

    /** One second of waiting. */
    method Tick() returns (end: Option<Waited>)
      requires Valid()
      modifies this`renewAt, ctx`now, ctx`calls, ctx`told, ctx`notes, ctx`acts
      ensures Valid() && old(ctx.told) <= ctx.told
      ensures GapsWithin(ctx.told, |old(ctx.told)|, RENEW_S + 1.0 + 6.0 * ctx.slack + old(Slip()) + old(Late()))
      ensures Slip() <= old(Slip()) && Late() <= old(Late()) + 2.0 * ctx.slack
      ensures old(ctx.now) <= ctx.now
      ensures end.Some? ==> ctx.now <= old(ctx.now) + 2.0 * ctx.slack
      ensures end == None ==> old(ctx.now) + 1.0 <= ctx.now < deadline + 1.0 + 2.0 * ctx.slack && old(ctx.now) < deadline
      ensures end == None ==> Late() == 0.0 && ctx.now <= old(ctx.now) + 1.0 + 3.0 * ctx.slack
      ensures ctx.told != old(ctx.told) ==> ctx.LastTold() >= old(renewAt)
      ensures ctx.acts == old(ctx.acts) + if end.Some? then [] else if ctx.told == old(ctx.told) then [Slept] else [Noted(""), Slept]
      ensures ctx.calls > old(ctx.calls)
      ensures end == Some(TimedOut) ==> ctx.now >= deadline
      ensures end in {None, Some(TimedOut), Some(ServerLine)}
      ensures end == Some(ServerLine) ==> ctx.LineFailed()
    {
      end, renewAt := ctx.Turn(deadline, renewAt, "");
    }

    /** A look at the page: at most one call late. */
    method Look() returns (r: Reply)
      requires Valid()
      modifies ctx`now, ctx`calls, ctx`acts
      ensures ctx.acts == old(ctx.acts) + [Asked(r)]
      ensures Valid() && old(ctx.now) <= ctx.now <= old(ctx.now) + ctx.slack
      ensures Slip() == old(Slip()) && Late() <= old(Late()) + ctx.slack
      ensures ctx.calls == old(ctx.calls) + 1 && r == ctx.reply(old(ctx.calls))
      ensures ctx.now == old(ctx.now) + ctx.cost(old(ctx.calls))
    {
      r := ctx.Ask();
    }

    method Read() returns (s: Sample, r: Reply)
      requires Valid()
      modifies ctx`now, ctx`calls, ctx`samples
      ensures ctx.samples == old(ctx.samples) + [s] && ctx.calls > 0 && r == ctx.reply(ctx.calls - 1)
      ensures Valid() && old(ctx.now) <= ctx.now <= old(ctx.now) + ctx.slack && s.at == ctx.now
      ensures Slip() == old(Slip()) && Late() <= old(Late()) + ctx.slack
    {
      s, r := ctx.Evaluate();
    }

    method Time() returns (t: real)
      requires Valid()
      modifies ctx`now, ctx`calls
      ensures Valid() && old(ctx.now) <= ctx.now <= old(ctx.now) + ctx.slack && t == ctx.now && ctx.calls > old(ctx.calls)
      ensures Slip() == old(Slip()) && Late() <= old(Late()) + ctx.slack
    {
      t := ctx.Clock();
    }

    /** Turns of no, each with the claim renewed or not, and then a yes when it returned. */
    ghost predicate UntilYes(before: seq<Act>, end: Waited, turns: seq<Act>)
      reads this, ctx
    {
      && AreTurns(turns, No, "")
      && (end.Returned? ==> ctx.acts == before + turns + [Asked(Yes)])
      && (end.TimedOut? ==> ctx.acts == before + turns + [Asked(No)])
    }

    /** A wait that took one call, number `n`, and told nobody. */
    ghost predicate AtOnce(before: real, n: nat, told: seq<real>, end: Waited)
      reads this, ctx
    {
      end.Returned? && ctx.told == told && ctx.calls == n + 1 && ctx.now == before + ctx.cost(n)
    }

    /** Waits until the page says so. */
    method WaitUntil() returns (end: Waited, ghost slept: bool, ghost turns: seq<Act>)
      requires Valid()
      modifies this`renewAt, ctx`now, ctx`calls, ctx`told, ctx`notes, ctx`acts
      ensures Kept(slept)
      // the whole errand's limit: at most a turn late, and at once when it is past
      ensures deadline == old(deadline) && signingIn == old(signingIn)
      ensures slept ==> ctx.now >= old(ctx.now) + 1.0
      ensures ctx.now <= if slept then deadline + 1.0 + 5.0 * ctx.slack else old(ctx.now) + 3.0 * ctx.slack
      ensures end.TimedOut? ==> ctx.now >= deadline
      ensures end.Returned? ==> ctx.Answered(old(ctx.calls), Yes)
      ensures ctx.reply(old(ctx.calls)) == Yes ==> AtOnce(old(ctx.now), old(ctx.calls), old(ctx.told), end)
      // it returns at the first yes, and fails at its limit only with a no each time it asked
      ensures UntilYes(old(ctx.acts), end, turns)
      ensures (end.ServerLine? ==> ctx.LineFailed()) && (end.Failed? ==> ctx.PageFailed())
    {
      hide GapsWithin, Slip, Late, Gap, ErrandContext.LineFailed, AreTurns;
      GapIs(ctx.slack, Slip(), Late());
      ghost var told0, gap, late := ctx.told, Gap(ctx.slack, Slip() + Late()), Late();
      GapsNone(told0, gap);
      ghost var tight := RENEW_S + 1.0 + 8.0 * ctx.slack + Slip() + Late();
      ghost var acts := ctx.acts;
      var r := Look();
      turns := [];
      NoTurns(No, "");
      assert acts + turns + [Asked(r)] == ctx.acts;
      if !r.No? {
        return if r.Yes? then Returned else Failed, false, turns;
      }
      end, slept, turns := TurnUntil(late + ctx.slack, acts);
      GapsJoin(told0, ctx.told, |told0|, tight, gap);
    }

    /** Turns until the page says so, which it has not just now. */
    method TurnUntil(ghost late: real, ghost acts: seq<Act>) returns (end: Waited, ghost slept: bool, ghost turns: seq<Act>)
      requires Valid() && Late() <= late && ctx.slack <= late && ctx.acts == acts + [] + [Asked(No)]
      modifies this`renewAt, ctx`now, ctx`calls, ctx`told, ctx`notes, ctx`acts
      ensures Valid() && old(ctx.told) <= ctx.told && old(ctx.now) <= ctx.now
      ensures GapsWithin(ctx.told, |old(ctx.told)|, RENEW_S + 1.0 + 7.0 * ctx.slack + old(Slip()) + late)
      ensures Slip() <= old(Slip()) && Late() <= late + 2.0 * ctx.slack
      ensures if slept then Late() <= 3.0 * ctx.slack && old(ctx.now) + 1.0 <= ctx.now <= deadline + 1.0 + 5.0 * ctx.slack
              else ctx.now <= old(ctx.now) + 2.0 * ctx.slack
      ensures end.TimedOut? ==> ctx.now >= deadline
      ensures end.Returned? ==> ctx.Answered(old(ctx.calls), Yes)
      ensures UntilYes(acts, end, turns)
      ensures (end.ServerLine? ==> ctx.LineFailed()) && (end.Failed? ==> ctx.PageFailed())
    {
      hide GapsWithin, TurnsLeft, Slip, Late, ErrandContext.LineFailed, AreTurns, Waiting, IsTurn;
      ghost var slip, told0, start := Slip(), ctx.told, ctx.now;
      ghost var gap := RENEW_S + 1.0 + 7.0 * ctx.slack + slip + late;
      GapsNone(told0, gap);
      ghost var asked := ctx.calls;
      assert ctx.slack >= 0.0 by { assert ctx.cost(0) <= ctx.slack; }
      var r := No;
      turns := [];
      WaitingBegins(acts, No, "", No);
      assert acts + [Asked(No)] == ctx.acts;
      ghost var latest := deadline + 1.0 + 3.0 * ctx.slack;
      slept := false;
      while r.No?
        invariant Valid() && told0 <= ctx.told && old(ctx.now) <= ctx.now
        invariant if slept then ctx.calls > asked && r == ctx.reply(ctx.calls - 1) else ctx.calls == asked
        invariant Slip() <= slip && Late() <= late
        invariant if slept then Late() <= ctx.slack && start + 1.0 <= ctx.now <= latest else r.No? && ctx.now == start
        invariant Waiting(ctx.acts, acts, turns, No, "", r)
        invariant GapsWithin(ctx.told, |told0|, gap)
        decreases TurnsLeft(ctx.now, deadline)
      {
        ghost var turn, before, waited := ctx.now, ctx.told, ctx.acts;
        ghost var tight := RENEW_S + 1.0 + 6.0 * ctx.slack + Slip() + Late();
        var out := Tick();
        GapsJoin(before, ctx.told, |told0|, tight, gap);
        if out.Some? {
          assert ctx.acts == waited;
          WaitingIs(waited, acts, turns, No, "", No);
          return out.value, slept, turns;
        }
        slept := true;
        ghost var added := if ctx.told == before then [Slept] else [Noted(""), Slept];
        TurnIs(added, "");
        r := Look();
        WaitingGoesOn(waited, acts, turns, No, "", added, r);
        turns := turns + [Asked(No)] + added;
        TurnTaken(turn, ctx.now, deadline);
      }
      WaitingIs(ctx.acts, acts, turns, No, "", r);
      end := if r.Yes? then Returned else Failed;
    }

    method TickAndRead() returns (out: Option<Waited>, seen: Sample)
      requires Valid()
      modifies this`renewAt, ctx`now, ctx`calls, ctx`told, ctx`notes, ctx`acts, ctx`samples
      ensures ctx.samples == old(ctx.samples) + if out == None || out == Some(Failed) then [seen] else []
      ensures (out == Some(ServerLine) ==> ctx.LineFailed()) && (out == Some(Failed) ==> ctx.PageFailed())
      ensures Valid() && old(ctx.told) <= ctx.told
      ensures GapsWithin(ctx.told, |old(ctx.told)|, RENEW_S + 1.0 + 6.0 * ctx.slack + old(Slip()) + old(Late()))
      ensures Slip() <= old(Slip()) && Late() <= old(Late()) + 2.0 * ctx.slack
      ensures old(ctx.now) <= ctx.now
      ensures out in {None, Some(Failed)} ==> Late() <= ctx.slack && old(ctx.now) + 1.0 <= ctx.now <= deadline + 1.0 + 3.0 * ctx.slack
      ensures out !in {None, Some(Failed)} ==> ctx.now <= old(ctx.now) + 2.0 * ctx.slack
      ensures out == None ==> seen.at == ctx.now && old(ctx.now) < deadline
      ensures out == Some(TimedOut) ==> ctx.now >= deadline
      ensures out != Some(Returned)
      ensures ctx.now <= old(ctx.now) + 1.0 + 4.0 * ctx.slack
    {
      hide GapsWithin, Slip, Late;
      assert ctx.slack >= 0.0 by { assert ctx.cost(0) <= ctx.slack; }
      seen := Sample(0.0, "");
      out := Tick();
      if out == None {
        var r;
        seen, r := Read();
        if r.Raises? {
          out := Some(Failed);
        }
      }
    }

    /** A turn, and whether the text has changed: a new one is still from then on. `first` is the number
        of the sample that was new last. */
    method TickAndCompare(before: Sample, since: real, ghost first: nat, ghost start: nat)
      returns (out: Option<Waited>, last: Sample, stillSince: real, ghost from: nat)
      requires Valid() && first < |ctx.samples| && RunBegins(ctx.samples, start, first)
      requires before.text == ctx.samples[first].text
      requires ctx.samples[first].at <= since <= ctx.samples[first].at + ctx.slack && since <= ctx.now
      modifies this`renewAt, ctx`now, ctx`calls, ctx`told, ctx`notes, ctx`acts, ctx`samples
      ensures Valid() && old(ctx.told) <= ctx.told && old(ctx.samples) <= ctx.samples && old(ctx.now) <= ctx.now
      ensures (out == Some(ServerLine) ==> ctx.LineFailed()) && (out == Some(Failed) ==> ctx.PageFailed())
      ensures GapsWithin(ctx.told, |old(ctx.told)|, RENEW_S + 1.0 + 6.0 * ctx.slack + old(Slip()) + old(Late()))
      ensures Slip() <= old(Slip()) && Late() <= old(Late()) + 2.0 * ctx.slack
      ensures out in {None, Some(Failed)} ==> Late() <= 2.0 * ctx.slack && old(ctx.now) + 1.0 <= ctx.now <= deadline + 1.0 + 4.0 * ctx.slack
      ensures out !in {None, Some(Failed)} ==>
                ctx.now <= old(ctx.now) + 2.0 * ctx.slack && ctx.samples == old(ctx.samples) && from == first
      ensures ctx.now <= old(ctx.now) + 1.0 + 5.0 * ctx.slack
      ensures out == Some(TimedOut) ==> ctx.now >= deadline
      ensures out == None ==>
                && old(ctx.now) < deadline
                && from < |ctx.samples| && RunBegins(ctx.samples, start, from) && last.text == ctx.samples[from].text
                && ctx.samples[from].at <= stillSince <= ctx.samples[from].at + ctx.slack
                && (if from == first then stillSince == since else stillSince == ctx.now)
                && stillSince <= ctx.now
      ensures out != Some(Returned)
    {
      hide GapsWithin, Slip, Late, RunBegins, ErrandContext.LineFailed;
      last, stillSince, from := before, since, first;
      ghost var samples := ctx.samples;
      assert ctx.slack >= 0.0 by { assert ctx.cost(0) <= ctx.slack; }
      var seen;
      out, seen := TickAndRead();
      if out == None {
        RunGrows(samples, ctx.samples, start, from);
        if seen.text != last.text {
          last := seen;
          from := |samples|;
          stillSince := Time();
        }
      }
    }

    /** Waits until the page's text has not changed for `seconds`; its last text was new at number `from`
        of the samples. */
    method WaitStill(seconds: real) returns (end: Waited, ghost from: nat, ghost slept: bool)
      requires Valid()
      modifies this`renewAt, ctx`now, ctx`calls, ctx`told, ctx`notes, ctx`acts, ctx`samples
      ensures Kept(slept)
      ensures deadline == old(deadline) && signingIn == old(signingIn)
      ensures slept ==> ctx.now >= old(ctx.now) + 1.0
      ensures ctx.now <= if slept then deadline + 1.0 + 7.0 * ctx.slack else old(ctx.now) + 5.0 * ctx.slack
      ensures end.TimedOut? ==> ctx.now >= deadline
      ensures (end.ServerLine? ==> ctx.LineFailed()) && (end.Failed? ==> ctx.PageFailed())
      // `from` is where the last run of one text begins
      ensures old(ctx.samples) <= ctx.samples
      ensures end in {Returned, TimedOut} ==> RunBegins(ctx.samples, |old(ctx.samples)|, from)
      // it returns only when every text it saw over at least the last `seconds` was the same, and then
      // within a turn; and fails at its limit only when that was not so
      ensures end.Returned? ==>
                seconds <= ctx.now - ctx.samples[from].at < Max(0.0, seconds) + 1.0 + 8.0 * ctx.slack
      ensures end.TimedOut? ==> ctx.now - ctx.samples[from].at < seconds + 3.0 * ctx.slack
    {
      hide GapsWithin, Slip, Late, Gap, SameFrom, RunBegins, ErrandContext.LineFailed;
      ghost var slip, late, told0 := Slip(), Late(), ctx.told;
      GapIs(ctx.slack, slip, late);
      GapsNone(told0, Gap(ctx.slack, slip + late));
      from := |ctx.samples|;
      var last, r := Read();
      if r.Raises? {
        return Failed, from, false;
      }
      SameStarts(ctx.samples, from);
      var stillSince := Time();
      end, from, slept := StayStill(seconds, last, stillSince, from, from, late + 2.0 * ctx.slack);
    }

    /** Turns until the text has been the same for `seconds`. */
    method StayStill(seconds: real, before: Sample, since: real, ghost first: nat, ghost start: nat, ghost late: real)
      returns (end: Waited, ghost from: nat, ghost slept: bool)
      requires Valid() && RunBegins(ctx.samples, start, first) && Late() <= late && 2.0 * ctx.slack <= late
      requires before.text == ctx.samples[first].text
      requires ctx.samples[first].at <= since <= ctx.samples[first].at + ctx.slack && since == ctx.now
      modifies this`renewAt, ctx`now, ctx`calls, ctx`told, ctx`notes, ctx`acts, ctx`samples
      ensures Valid() && old(ctx.told) <= ctx.told && old(ctx.samples) <= ctx.samples && old(ctx.now) <= ctx.now
      ensures GapsWithin(ctx.told, |old(ctx.told)|, RENEW_S + 1.0 + 7.0 * ctx.slack + old(Slip()) + late)
      ensures Slip() <= old(Slip()) && Late() <= late + 3.0 * ctx.slack
      ensures if slept then Late() <= 5.0 * ctx.slack && old(ctx.now) + 1.0 <= ctx.now <= deadline + 1.0 + 7.0 * ctx.slack
              else ctx.now <= old(ctx.now) + 3.0 * ctx.slack
      ensures end.TimedOut? ==> ctx.now >= deadline
      ensures (end.ServerLine? ==> ctx.LineFailed()) && (end.Failed? ==> ctx.PageFailed())
      ensures end in {Returned, TimedOut} ==> RunBegins(ctx.samples, start, from)
      ensures end.Returned? ==>
                seconds <= ctx.now - ctx.samples[from].at < Max(0.0, seconds) + 1.0 + 8.0 * ctx.slack
      ensures end.TimedOut? ==> ctx.now - ctx.samples[from].at < seconds + 3.0 * ctx.slack
    {
      hide GapsWithin, TurnsLeft, Slip, Late, RunBegins, Max, ErrandContext.LineFailed;
      MaxIs(0.0, seconds);
      ghost var slip, told0, began := Slip(), ctx.told, ctx.now;
      ghost var gap := RENEW_S + 1.0 + 7.0 * ctx.slack + slip + late;
      GapsNone(told0, gap);
      var last, stillSince := before, since;
      from := first;
      InRun(ctx.samples, start, from);
      var t := Time();
      ghost var latest := deadline + 1.0 + 5.0 * ctx.slack;
      slept := false;
      while t - stillSince < seconds
        invariant Valid() && told0 <= ctx.told && old(ctx.now) <= ctx.now && old(ctx.samples) <= ctx.samples
        invariant from < |ctx.samples| && RunBegins(ctx.samples, start, from) && last.text == ctx.samples[from].text
        invariant ctx.samples[from].at <= stillSince <= ctx.samples[from].at + ctx.slack && stillSince <= t == ctx.now
        invariant t - stillSince < Max(0.0, seconds) + 1.0 + 7.0 * ctx.slack
        invariant Slip() <= slip && Late() <= late + ctx.slack
        invariant if slept then Late() <= 3.0 * ctx.slack && began + 1.0 <= ctx.now <= latest else ctx.now <= began + ctx.slack
        invariant GapsWithin(ctx.told, |told0|, gap)
        decreases TurnsLeft(ctx.now, deadline)
      {
        ghost var turn, told1 := ctx.now, ctx.told;
        ghost var tight := RENEW_S + 1.0 + 6.0 * ctx.slack + Slip() + Late();
        var out;
        out, last, stillSince, from := TickAndCompare(last, stillSince, from, start);
        GapsJoin(told1, ctx.told, |told0|, tight, gap);
        if out.Some? {
          return out.value, from, slept || out == Some(Failed);
        }
        slept := true;
        t := Time();
        TurnTaken(turn, ctx.now, deadline);
      }
      end := Returned;
    }

    /** While the page is a sign-in, brings the window forward and waits for the person to sign in. */
    method WaitForLogin(timeout: real) returns (end: Waited, ghost slept: bool, ghost turns: seq<Act>)
      requires Valid()
      modifies this, ctx`now, ctx`calls, ctx`told, ctx`notes, ctx`acts
      ensures Kept(slept)
      // the answer's limit waits meanwhile: what is left of it is what was, but for the calls around
      ensures end.Returned? ==>
                && old(deadline - ctx.now) - 6.0 * ctx.slack <= deadline - ctx.now <= old(deadline - ctx.now)
                && signingIn - old(signingIn) <= ctx.now - old(ctx.now)
      ensures !end.Returned? ==> deadline == old(deadline)
      // asked once before and once each turn; shown and told first, and at the end
      ensures AreTurns(turns, No, "login")
      ensures end.Returned? ==> ctx.acts == old(ctx.acts) + [Asked(Yes)]
                                || ctx.acts == old(ctx.acts) + LOGIN + turns + [Asked(Yes)] + [Noted("")]
      ensures end.TimedOut? ==> ctx.acts == old(ctx.acts) + LOGIN + turns + [Asked(No)]
      // it returns only signed in, with the card told so unless they always were
      ensures end.Returned? ==> ctx.Answered(old(ctx.calls), Yes) && (ctx.told == old(ctx.told) || ctx.Cleared(old(ctx.told)))
      ensures (end.ServerLine? ==> ctx.LineFailed()) && (end.Failed? ==> ctx.PageFailed())
      ensures end.TimedOut? ==> ctx.now >= old(ctx.now) + timeout
      ensures ctx.now <= old(ctx.now) + Max(0.0, timeout) + 1.0 + 12.0 * ctx.slack
    {
      hide GapsWithin, Slip, Late, Gap, AreTurns;
      ghost var slip, late, told0, from := Slip(), Late(), ctx.told, ctx.now;
      ghost var gap := Gap(ctx.slack, slip + late);
      GapIs(ctx.slack, slip, late);
      GapsNone(told0, gap);
      turns := [];
      NoTurns(No, "login");
      ghost var acts := ctx.acts;
      var r := Look();
      if !r.No? {
        return if r.Yes? then Returned else Failed, false, turns;
      }
      ghost var tight := RENEW_S + 1.0 + 8.0 * ctx.slack + Slip() + Late();
      end, turns := SignIn(timeout);
      assert acts + [Asked(No)] + [Showed, Noted("login")] == acts + LOGIN;
      slept := |ctx.told| > |told0|;
      GapsJoin(told0, ctx.told, |told0|, tight, gap);
    }

    /** A sign-in is needed: asked, shown, told. */
    static const LOGIN: seq<Act> := [Asked(No), Showed, Noted("login")]

    /** Signing in: shown, told to the card, waited for, and told again. */
    method SignIn(timeout: real) returns (end: Waited, ghost turns: seq<Act>)
      requires Valid()
      modifies this, ctx`now, ctx`calls, ctx`told, ctx`notes, ctx`acts
      ensures Valid() && created == old(created) && old(ctx.told) <= ctx.told && old(ctx.now) <= ctx.now
      ensures GapsWithin(ctx.told, |old(ctx.told)|, RENEW_S + 1.0 + 8.0 * ctx.slack + old(Slip()) + old(Late()))
      ensures Slip() <= old(Slip()) && Late() <= old(Late()) + 4.0 * ctx.slack
      ensures if |ctx.told| > |old(ctx.told)| then Late() <= 4.0 * ctx.slack else ctx.now <= old(ctx.now) + 2.0 * ctx.slack
      ensures end.Returned? ==>
                && old(deadline - ctx.now) - 5.0 * ctx.slack <= deadline - ctx.now <= old(deadline - ctx.now)
                && signingIn - old(signingIn) <= ctx.now - old(ctx.now)
      ensures !end.Returned? ==> deadline == old(deadline)
      ensures end.Returned? ==> ctx.Answered(old(ctx.calls), Yes) && ctx.Cleared(old(ctx.told))
      ensures (end.ServerLine? ==> ctx.LineFailed()) && (end.Failed? ==> ctx.PageFailed())
      ensures AreTurns(turns, No, "login")
      ensures end.Returned? ==> ctx.acts == old(ctx.acts) + [Showed, Noted("login")] + turns + [Asked(Yes)] + [Noted("")]
      ensures end.TimedOut? ==> ctx.acts == old(ctx.acts) + [Showed, Noted("login")] + turns + [Asked(No)]
      ensures end.TimedOut? ==> ctx.now >= old(ctx.now) + timeout
      ensures ctx.now <= old(ctx.now) + Max(0.0, timeout) + 1.0 + 11.0 * ctx.slack
    {
      hide GapsWithin, Slip, Late, AreTurns;
      ghost var told0 := ctx.told;
      ghost var gap := RENEW_S + 1.0 + 8.0 * ctx.slack + Slip() + Late();
      ghost var tight := RENEW_S + 1.0 + 7.0 * ctx.slack + Slip() + Late();
      GapsNone(told0, gap);
      var out := ShowLogin();
      GapsJoin(told0, ctx.told, |told0|, tight, gap);
      if out.Some? {
        turns := [];
        NoTurns(No, "login");
        return out.value, turns;
      }
      ghost var first := ctx.told;
      end, turns := AwaitLogin(timeout);
      GapsJoin(first, ctx.told, |told0|, RENEW_S + 1.0 + 8.0 * ctx.slack, gap);
    }

    method ShowLogin() returns (out: Option<Waited>)
      requires Valid()
      modifies ctx`now, ctx`calls, ctx`told, ctx`notes, ctx`acts
      ensures Valid() && old(ctx.told) <= ctx.told && old(ctx.now) <= ctx.now <= old(ctx.now) + 2.0 * ctx.slack
      ensures GapsWithin(ctx.told, |old(ctx.told)|, RENEW_S + 1.0 + 7.0 * ctx.slack + old(Slip()) + old(Late()))
      ensures Slip() <= old(Slip()) && Late() <= old(Late()) + 2.0 * ctx.slack
      ensures out.Some? ==> ctx.told == old(ctx.told)
      ensures out == None ==> ctx.acts == old(ctx.acts) + [Showed, Noted("login")]
      ensures out != Some(TimedOut) && out != Some(Returned)
      ensures out in {None, Some(Failed), Some(ServerLine)} && ctx.calls > old(ctx.calls)
      ensures out == None ==> ctx.LastTold() == ctx.now && |ctx.told| == |old(ctx.told)| + 1
      ensures (out == Some(ServerLine) ==> ctx.LineFailed()) && (out == Some(Failed) ==> ctx.PageFailed())
    {
      var shown := ctx.Show();
      if !shown {
        return Some(Failed);
      }
      var arrived := ctx.Note("login");
      out := if arrived then None else Some(ServerLine);
    }

    method AwaitLogin(timeout: real) returns (end: Waited, ghost turns: seq<Act>)
      requires Valid() && ctx.LastTold() == ctx.now
      modifies this, ctx`now, ctx`calls, ctx`told, ctx`notes, ctx`acts
      ensures Valid() && created == old(created) && old(ctx.told) <= ctx.told && old(ctx.now) <= ctx.now
      ensures GapsWithin(ctx.told, |old(ctx.told)|, RENEW_S + 1.0 + 8.0 * ctx.slack)
      ensures Slip() <= old(Slip()) && Late() <= 4.0 * ctx.slack
      ensures end.Returned? ==>
                && old(deadline - ctx.now) - 3.0 * ctx.slack <= deadline - ctx.now <= old(deadline - ctx.now)
                && signingIn - old(signingIn) <= ctx.now - old(ctx.now)
      ensures !end.Returned? ==> deadline == old(deadline)
      ensures end.Returned? ==> ctx.Answered(old(ctx.calls), Yes) && |ctx.told| > |old(ctx.told)| && ctx.notes[|ctx.notes| - 1] == ""
      ensures (end.ServerLine? ==> ctx.LineFailed()) && (end.Failed? ==> ctx.PageFailed())
      ensures AreTurns(turns, No, "login")
      ensures end.Returned? ==> ctx.acts == old(ctx.acts) + turns + [Asked(Yes)] + [Noted("")]
      ensures end.TimedOut? ==> ctx.acts == old(ctx.acts) + turns + [Asked(No)]
      ensures end.TimedOut? ==> ctx.now >= old(ctx.now) + timeout
      ensures ctx.now <= old(ctx.now) + Max(0.0, timeout) + 1.0 + 9.0 * ctx.slack
    {
      hide GapsWithin, TurnsLeft, Slip, Late, Max, AreTurns;
      ghost var first, gap := ctx.told, RENEW_S + 1.0 + 8.0 * ctx.slack;
      var start := Time();
      end, turns := Hold(start, timeout);
      GapsNone(first, gap);
      GapsJoin(first, ctx.told, |first|, RENEW_S + 1.0 + 7.0 * ctx.slack, gap);
      if end.Returned? {
        ghost var held := ctx.told;
        end := SignedIn(start);
        GapsGrow(held, ctx.told, |first|, gap);
      }
    }

    method Hold(start: real, timeout: real) returns (end: Waited, ghost turns: seq<Act>)
      requires Valid() && ctx.LastTold() <= start == ctx.now <= ctx.LastTold() + ctx.slack
      modifies ctx`now, ctx`calls, ctx`told, ctx`notes, ctx`acts
      ensures Valid() && old(ctx.told) <= ctx.told && old(ctx.now) <= ctx.now
      ensures GapsWithin(ctx.told, |old(ctx.told)|, RENEW_S + 1.0 + 7.0 * ctx.slack)
      ensures Slip() <= old(Slip()) && Late() <= 2.0 * ctx.slack
      ensures ctx.now <= ctx.LastTold() + RENEW_S + 1.0 + 6.0 * ctx.slack
      ensures ctx.calls > old(ctx.calls) && (end.Returned? ==> ctx.reply(ctx.calls - 1) == Yes)
      ensures (end.ServerLine? ==> ctx.LineFailed()) && (end.Failed? ==> ctx.PageFailed())
      ensures AreTurns(turns, No, "login")
      ensures end.Returned? ==> ctx.acts == old(ctx.acts) + turns + [Asked(Yes)]
      ensures end.TimedOut? ==> ctx.acts == old(ctx.acts) + turns + [Asked(No)]
      ensures end.TimedOut? ==> ctx.now >= start + timeout
      ensures ctx.now <= start + Max(0.0, timeout) + 1.0 + 5.0 * ctx.slack
    {
      hide AreTurns, GapsWithin;
      end, turns := ctx.HoldOn(start + timeout, start + RENEW_S, "login", No, ctx.told);
    }

    /** Signed in: the card is told so, and the time it took since `start` is not the answer's. */
    method SignedIn(start: real) returns (end: Waited)
      requires Valid() && start <= ctx.now
      modifies this, ctx`now, ctx`calls, ctx`told, ctx`notes, ctx`acts
      ensures Valid() && created == old(created) && old(ctx.now) <= ctx.now <= old(ctx.now) + 3.0 * ctx.slack
      ensures end == if ctx.told == old(ctx.told) then ServerLine else Returned
      ensures ctx.calls > old(ctx.calls) && (end.ServerLine? ==> ctx.LineFailed())
      ensures end.ServerLine? ==> deadline == old(deadline) && Slip() == old(Slip()) && Late() <= old(Late()) + ctx.slack
      ensures end.Returned? ==>
                && ctx.told == old(ctx.told) + [ctx.LastTold()] && ctx.LastTold() <= old(ctx.now) + ctx.slack
                && ctx.notes[|ctx.notes| - 1] == "" && ctx.acts == old(ctx.acts) + [Noted("")]
                && Slip() == Late() == 0.0
                && old(deadline) - start - ctx.slack <= deadline - ctx.now <= old(deadline) - start
                && signingIn - old(signingIn) == deadline - old(deadline)
    {
      var arrived := ctx.Note("");
      if !arrived {
        return ServerLine;
      }
      var t := ctx.Clock();
      deadline := deadline + (t - start);
      signingIn := signingIn + (t - start);
      t := ctx.Clock();
      renewAt := t + RENEW_S;
      end := Returned;
    }

    /** One wait, and how long it took. */
    method Await(wait: Wait) returns (end: Waited, ghost took: real, ghost slept: bool)
      requires Valid()
      modifies this, ctx`now, ctx`calls, ctx`told, ctx`notes, ctx`acts, ctx`samples
      ensures Kept(slept) && took == ctx.now - old(ctx.now)
      ensures wait.Login? ==> deadline - ctx.now <= old(deadline - ctx.now)
      ensures !wait.Login? ==>
                && deadline == old(deadline)
                && (slept ==> 1.0 <= took <= old(deadline - ctx.now) + 1.0 + 7.0 * ctx.slack)
    {
      hide GapsWithin, Gap, Behind, Slip, Late, ErrandContext.LineFailed, ErrandContext.PageFailed, SameFrom;
      assert ctx.slack >= 0.0 by { assert ctx.cost(0) <= ctx.slack; }
      took := ctx.now;
      ghost var from, turns;
      match wait {
        case Until => end, slept, turns := WaitUntil();
        case Still(seconds) => end, from, slept := WaitStill(seconds);
        case Login(timeout) => end, slept, turns := WaitForLogin(timeout);
      }
      took := ctx.now - took;
    }

    /** Any waits, one after another, whatever becomes of each; `took` is how long each took, and `slept`
        whether it slept even once, or told the card of a sign-in. Two renewals are never further apart
        than `RENEW_S`, a turn, and what a few calls take, five of them for each wait of the longest run of
        waits that did not: with none such the bound is the same for every sequence. And the time spent on
        anything but signing in is what was left of the limit, a turn, and five calls for each such wait. */
    method InTurn(waits: seq<Wait>) returns (ends: seq<Waited>, ghost took: seq<real>, ghost slept: seq<bool>)
      requires Valid()
      modifies this, ctx`now, ctx`calls, ctx`told, ctx`notes, ctx`acts, ctx`samples
      ensures Valid() && old(ctx.told) <= ctx.told && |ends| == |took| == |slept| == |waits|
      ensures ctx.now == old(ctx.now) + Total(took)
      ensures SleptIsSo(waits, took, slept, 5.0 * ctx.slack)
      ensures GapsWithin(ctx.told, |old(ctx.told)|, Gap(ctx.slack, old(Behind()) + Calls(Longest(slept) + 1, ctx.slack)))
      ensures Asking(waits, took) <= Max(0.0, old(deadline - ctx.now)) + 1.0 + 7.0 * ctx.slack
                                     + Calls(Quick(waits, slept), ctx.slack)
    {
      hide GapsWithin, Gap, Behind, Slip, Late, Total, Asking, Quick, Longest, Streak, Calls, SleptIsSo, TimeIsSpent, Max;
      ghost var told0, slip, behind, slack := ctx.told, Slip(), Behind(), ctx.slack;
      ghost var left := deadline - ctx.now;
      assert slack >= 0.0 by { assert ctx.cost(0) <= slack; }
      assert behind >= slip by { SlipIsBehind(); }
      ends, took, slept := [], [], [];
      NothingTaken(told0, slack, behind, left);
      for i := 0 to |waits|
        invariant Valid() && told0 <= ctx.told && |ends| == |took| == |slept| == i && slack == ctx.slack
        invariant ctx.now == old(ctx.now) + Total(took)
        invariant TimeIsSpent(waits[..i], took, slept, left, deadline - ctx.now, slack)
        invariant Slip() <= slip && Behind() <= behind + Calls(Streak(slept) + 1, slack)
        invariant GapsWithin(ctx.told, |told0|, Gap(slack, behind + Calls(Longest(slept) + 1, slack)))
      {
        ghost var tookBefore, sleptBefore, told1, now, leftBefore := took, slept, ctx.told, Behind(), deadline - ctx.now;
        var end;
        ghost var t, s;
        end, t, s := Await(waits[i]);
        ends, took, slept := ends + [end], took + [t], slept + [s];
        assert waits[..i + 1] == waits[..i] + [waits[i]];
        Took(tookBefore, sleptBefore, t, s, slack);
        TimeGoesOn(waits[..i], tookBefore, sleptBefore, left, leftBefore, slack, waits[i], t, s, deadline - ctx.now);
        GapsGoOn(told1, ctx.told, |told0|, slack, behind + Calls(Longest(sleptBefore) + 1, slack), now,
                 behind + Calls(Longest(slept) + 1, slack));
      }
      assert waits[..|waits|] == waits;
      TimeSpent(waits, took, slept, left, deadline - ctx.now, slack);
    }

    /** The bound grows for a reason: with a page that always says so, and calls that take all they may,
        any number of waits return one after another, no renewal comes, and each leaves the last one
        further back. */
    method NeverSlept(waits: nat) returns (ends: seq<Waited>)
      requires Valid() && forall n: nat :: ctx.reply(n) == Yes && ctx.cost(n) == ctx.slack
      modifies this`renewAt, ctx`now, ctx`calls, ctx`told, ctx`notes, ctx`acts
      ensures Valid() && |ends| == waits && forall end | end in ends :: end.Returned?
      ensures ctx.told == old(ctx.told) && ctx.now - ctx.LastTold() == old(ctx.now - ctx.LastTold()) + Times(waits, ctx.slack)
    {
      hide GapsWithin, Slip, Late, Gap, ErrandContext.LineFailed, ErrandContext.PageFailed;
      ends := [];
      for i := 0 to waits
        invariant Valid() && |ends| == i && forall end | end in ends :: end.Returned?
        invariant ctx.told == old(ctx.told) && ctx.now == old(ctx.now) + Times(i, ctx.slack)
      {
        var end;
        ghost var slept, turns;
        end, slept, turns := WaitUntil();
        ends := ends + [end];
      }
    }

    lemma SlipIsBehind()
      requires Valid()
      ensures Slip() <= Behind()
    {
    }
  }

  datatype Wait = Until | Still(seconds: real) | Login(timeout: real)

  // ---- a sequence of waits, by how long each took ----

  function Total(took: seq<real>): real {
    if took == [] then 0.0 else Total(took[..|took| - 1]) + took[|took| - 1]
  }

  /** The time spent on anything but signing in. */
  function Asking(waits: seq<Wait>, took: seq<real>): real
    requires |waits| == |took|
  {
    if waits == [] then 0.0
    else
      var n := |waits| - 1;
      Asking(waits[..n], took[..n]) + if waits[n].Login? then 0.0 else took[n]
  }

  /** A wait that slept took at least its second; one that did not, no longer than `short`. */
  ghost predicate SleptIsSo(waits: seq<Wait>, took: seq<real>, slept: seq<bool>, short: real) {
    && |waits| == |took| == |slept|
    && forall i | 0 <= i < |waits| :: if slept[i] then waits[i].Login? || took[i] >= 1.0 else took[i] <= short
  }

  /** How many of those did not sleep. */
  function Quick(waits: seq<Wait>, slept: seq<bool>): nat
    requires |waits| == |slept|
  {
    if waits == [] then 0
    else
      var n := |waits| - 1;
      Quick(waits[..n], slept[..n]) + if !waits[n].Login? && !slept[n] then 1 else 0
  }

  /** How many of the last waits in a row did not sleep. */
  function Streak(slept: seq<bool>): nat {
    if slept == [] || slept[|slept| - 1] then 0 else Streak(slept[..|slept| - 1]) + 1
  }

  /** The longest such run anywhere. */
  function Longest(slept: seq<bool>): nat {
    if slept == [] then 0
    else
      var before, streak := Longest(slept[..|slept| - 1]), Streak(slept);
      if before < streak then streak else before
  }

  function Times(n: nat, x: real): real {
    if n == 0 then 0.0 else Times(n - 1, x) + x
  }

  /** What five calls for each of `n` waits take. */
  function Calls(n: nat, slack: real): real {
    if n == 0 then 0.0 else Calls(n - 1, slack) + 5.0 * slack
  }

  lemma {:induction false} CallsGrow(m: nat, n: nat, slack: real)
    requires m <= n && slack >= 0.0
    ensures 0.0 <= Calls(m, slack) <= Calls(n, slack)
  {
    if m < n {
      CallsGrow(m, n - 1, slack);
    } else if m > 0 {
      CallsGrow(m - 1, m - 1, slack);
    }
  }

  lemma StreakIsCounted(slept: seq<bool>)
    ensures Streak(slept) <= Longest(slept)
  {
  }

  /** How the limit's time went: `now` is what is left of `left`. */
  ghost predicate TimeIsSpent(waits: seq<Wait>, took: seq<real>, slept: seq<bool>, left: real, now: real, slack: real) {
    && SleptIsSo(waits, took, slept, 5.0 * slack)
    && now <= left - Asking(waits, took)
    && Asking(waits, took) <= Max(0.0, left) + 1.0 + 7.0 * slack + Calls(Quick(waits, slept), slack)
  }

  lemma TimeSpent(waits: seq<Wait>, took: seq<real>, slept: seq<bool>, left: real, now: real, slack: real)
    requires TimeIsSpent(waits, took, slept, left, now, slack)
    ensures SleptIsSo(waits, took, slept, 5.0 * slack)
    ensures Asking(waits, took) <= Max(0.0, left) + 1.0 + 7.0 * slack + Calls(Quick(waits, slept), slack)
  {
  }

  /** One more wait: one that slept ends a turn after the limit at most. */
  lemma TimeGoesOn(waits: seq<Wait>, took: seq<real>, slept: seq<bool>, left: real, before: real, slack: real,
                   wait: Wait, t: real, s: bool, now: real)
    requires slack >= 0.0 && TimeIsSpent(waits, took, slept, left, before, slack)
    requires if s then wait.Login? || 1.0 <= t <= before + 1.0 + 7.0 * slack else t <= 5.0 * slack
    requires now <= before - if wait.Login? then 0.0 else t
    ensures TimeIsSpent(waits + [wait], took + [t], slept + [s], left, now, slack)
  {
    var all, longer, flags := waits + [wait], took + [t], slept + [s];
    assert longer[..|took|] == took && all[..|waits|] == waits && flags[..|slept|] == slept;
    var n := Quick(waits, slept);
    CallsGrow(n, n + 1, slack);
    assert Calls(n + 1, slack) == Calls(n, slack) + 5.0 * slack;
    assert Asking(all, longer) == Asking(waits, took) + if wait.Login? then 0.0 else t;
    assert Quick(all, flags) == n + if !wait.Login? && !s then 1 else 0;
  }

  lemma NothingTaken(told: seq<real>, slack: real, behind: real, left: real)
    requires slack >= 0.0 && |told| >= 1
    ensures Total([]) == 0.0 && TimeIsSpent([], [], [], left, left, slack)
    ensures 0.0 <= Calls(Streak([]) + 1, slack)
    ensures GapsWithin(told, |told|, Gap(slack, behind + Calls(Longest([]) + 1, slack)))
  {
    CallsGrow(0, 1, slack);
  }

  /** One more wait, as the runs of waits that did not sleep see it. */
  lemma Took(took: seq<real>, slept: seq<bool>, t: real, s: bool, slack: real)
    requires slack >= 0.0
    ensures var longer, flags := took + [t], slept + [s];
            && Total(longer) == Total(took) + t
            && Calls(Streak(flags) + 1, slack) == (if s then 5.0 * slack else Calls(Streak(slept) + 1, slack) + 5.0 * slack)
            && Calls(Streak(slept) + 1, slack) <= Calls(Longest(flags) + 1, slack)
            && Calls(Longest(slept) + 1, slack) <= Calls(Longest(flags) + 1, slack)
  {
    var longer, flags := took + [t], slept + [s];
    assert longer[..|took|] == took && flags[..|slept|] == slept;
    StreakIsCounted(slept);
    CallsGrow(Streak(slept) + 1, Longest(flags) + 1, slack);
    CallsGrow(Longest(slept) + 1, Longest(flags) + 1, slack);
  }

  /** Gaps kept to one bound, and after `before` to another, are all within a wider one. */
  lemma GapsGoOn(before: seq<real>, now: seq<real>, from: nat, slack: real, was: real, since: real, behind: real)
    requires 1 <= from <= |before| && before <= now && was <= behind && since <= behind
    requires GapsWithin(before, from, Gap(slack, was)) && GapsWithin(now, |before|, Gap(slack, since))
    ensures GapsWithin(now, from, Gap(slack, behind))
  {
    GapsJoin(before, now, from, Gap(slack, since), Gap(slack, behind));
  }

  /** Every sample from number `i` on has the same text. */
  ghost predicate SameFrom(samples: seq<Sample>, i: nat) {
    forall j | i <= j < |samples| :: samples[j].text == samples[i].text
  }

  /** Number `i` is where the last run of one text begins, among the samples from number `start` on. */
  ghost predicate RunBegins(samples: seq<Sample>, start: nat, i: nat) {
    && start <= i < |samples| && SameFrom(samples, i)
    && (i > start ==> samples[i - 1].text != samples[i].text)
  }

  lemma InRun(samples: seq<Sample>, start: nat, i: nat)
    requires RunBegins(samples, start, i)
    ensures i < |samples|
  {
  }

  lemma SameStarts(samples: seq<Sample>, start: nat)
    requires |samples| == start + 1
    ensures RunBegins(samples, start, start)
  {
  }

  lemma RunGrows(samples: seq<Sample>, longer: seq<Sample>, start: nat, i: nat)
    requires RunBegins(samples, start, i) && |longer| == |samples| + 1 && longer[..|samples|] == samples
    ensures i < |samples|
    ensures if longer[|samples|].text == longer[i].text then RunBegins(longer, start, i) else RunBegins(longer, start, |samples|)
  {
    forall j | 0 <= j < |samples|
      ensures longer[j] == samples[j]
    {
      assert longer[..|samples|][j] == samples[j];
    }
  }

  lemma GapsJoin(before: seq<real>, now: seq<real>, from: nat, tight: real, bound: real)
    requires 1 <= from <= |before| && before <= now && tight <= bound
    requires GapsWithin(before, from, bound) && GapsWithin(now, |before|, tight)
    ensures GapsWithin(now, from, bound)
  {
    forall i | from <= i < |now|
      ensures now[i] - now[i - 1] <= bound
    {
      if i < |before| {
        assert now[i] == before[i] && now[i - 1] == before[i - 1];
      }
    }
  }

  lemma GapIs(slack: real, slip: real, late: real)
    ensures Gap(slack, slip + late) == RENEW_S + 1.0 + 9.0 * slack + slip + late
  {
  }

  /** The longest time between two renewals. */
  function Gap(slack: real, behind: real): real {
    RENEW_S + 1.0 + 9.0 * slack + behind
  }

  /** A claim lasts 120 seconds on the server, and a helper silent for 30 counts as gone: as long as no call
      takes more than seven, the one never lapses between two renewals, and with none of more than 0.6 the
      other is never so. */
  lemma ClaimOutlives(slack: real)
    requires 0.0 <= slack <= 7.0
    ensures Gap(slack, Calls(1, slack)) < 120.0
    ensures slack <= 0.6 ==> Gap(slack, Calls(1, slack)) < 30.0
  {
    assert Calls(1, slack) == Calls(0, slack) + 5.0 * slack;
  }

  lemma MaxIs(a: real, b: real)
    ensures Max(a, b) >= a && Max(a, b) >= b
  {
  }

  lemma TurnTaken(before: real, now: real, limit: real)
    requires before < limit && before + 1.0 <= now
    ensures TurnsLeft(now, limit) < TurnsLeft(before, limit)
  {
  }

  lemma GapsNone(told: seq<real>, bound: real)
    ensures |told| >= 1 ==> GapsWithin(told, |told|, bound)
    ensures GapsWithin(told, |told| + 1, bound)
  {
  }

  lemma GapsGrow(before: seq<real>, now: seq<real>, from: nat, bound: real)
    requires 1 <= from <= |before| && GapsWithin(before, from, bound)
    requires now == before || (|now| == |before| + 1 && now[..|before|] == before && now[|before|] - now[|before| - 1] <= bound)
    ensures GapsWithin(now, from, bound)
  {
    forall i | from <= i < |now|
      ensures now[i] - now[i - 1] <= bound
    {
      assert now[i - 1] == before[i - 1];
      assert i < |before| ==> now[i] == before[i];
    }
  }
}
