/**
 Waiting until a page has stopped moving.

 The page is a script that may do anything: which navigations start and end during each call, what
 its address is afterwards, and what each call costs. A look lasts at least `LOOK`. Times are
 seconds; addresses are without their fragment.
 */
module Settle {
  import opened Wrappers

  const QUIET := 1.5
  const LOOK := 0.25

  datatype PageEvent = Started(request: nat) | Ended(request: nat)

  /** How the wait ends: at a verification, with the address quiet, or at the deadline. */
  datatype Exit = Stopped | Quiet | Deadline

  /** What one look saw: the address, or a page on its way; the clock read after it; and how often it had
      been asked by then whether a verification stands there. */
  datatype Look = Look(at: real, here: Option<string>, read: real, asked: nat)

  function AfterEvents(onItsWay: set<nat>, events: seq<PageEvent>): set<nat> {
    if events == [] then onItsWay
    else
      var before := AfterEvents(onItsWay, events[..|events| - 1]);
      match events[|events| - 1]
      case Started(r) => before + {r}
      case Ended(r) => before - {r}
  }

  class Page {
    const cost: nat -> real
    const events: nat -> seq<PageEvent>
    const addresses: nat -> string
    const verification: nat -> bool
    var now: real
    var calls: nat
    var address: string
    /** Navigations started and not ended: what the listeners keep. */
    var onItsWay: set<nat>
    /** What the looks of this wait saw, and the answers about a verification. */
    ghost var looks: seq<Look>
    ghost var asked: seq<bool>

    ghost predicate Valid() {
      forall n: nat :: 0.0 <= cost(n)
    }

    /** What the first `n` calls take. */
    function Spent(n: nat): real {
      if n == 0 then 0.0 else Spent(n - 1) + cost(n - 1)
    }

    /** A call during which the page's events are heard. */
    method Call(least: real)
      requires Valid() && least >= 0.0
      modifies this`now, this`calls, this`address, this`onItsWay
      ensures now >= old(now) + least && calls == old(calls) + 1
      ensures now - Spent(calls) == old(now - Spent(calls)) + least
      ensures address == addresses(old(calls)) && onItsWay == AfterEvents(old(onItsWay), events(old(calls)))
    {
      now := now + least + cost(calls);
      var heard := events(calls);
      ghost var before := onItsWay;
      for i := 0 to |heard|
        invariant onItsWay == AfterEvents(before, heard[..i])
        invariant now == old(now) + least + cost(calls) && calls == old(calls)
      {
        assert heard[..i + 1][..i] == heard[..i];
        match heard[i] {
          case Started(r) => onItsWay := onItsWay + {r};
          case Ended(r) => onItsWay := onItsWay - {r};
        }
      }
      assert heard[..|heard|] == heard;
      address := addresses(calls);
      calls := calls + 1;
    }

    method Monotonic() returns (t: real)
      requires Valid()
      modifies this`now, this`calls
      ensures t == now >= old(now) && now - Spent(calls) == old(now - Spent(calls))
    {
      now := now + cost(calls);
      calls := calls + 1;
      t := now;
    }

    /** Waits until the page has stopped moving. `from` is the first of the looks that saw the last
        address; `waits` the addresses whose load it waited for, each with the address after that wait. */
    method Settle(deadline: real)
      returns (settled: bool, why: Exit, ghost from: nat, ghost waits: seq<(string, string)>)
      requires Valid()
      modifies this
      // stopped at the first verification there was, when asked
      ensures why.Stopped? ==> settled && asked != [] && asked[|asked| - 1]
      ensures NoneStops(if why.Stopped? then asked[..|asked| - 1] else asked)
      // it is asked before each look that sees an address
      ensures AskedBefore(looks)
      // quiet: for all of QUIET every look saw the same address and no page on its way
      ensures why.Quiet? ==> settled && from < |looks| && SameFrom(looks, from) && looks[|looks| - 1].read - looks[from].at >= QUIET
      // and at the first look of which that can be said
      ensures NeverQuiet(if why.Quiet? then looks[..|looks| - 1] else looks)
      // out of time: settled only when no look ever saw it move
      ensures why.Deadline? ==> now >= deadline && (settled <==> (looks != [] ==> SameFrom(looks, 0)) && onItsWay == {})
      // between two looks, and after the last one that was not quiet, it sleeps once, and not for longer
      ensures now - Spent(calls) == old(now - Spent(calls)) + Sleeps(|looks| - if why.Quiet? then 1 else 0)
      // a load that never comes is waited for once: the next wait is for another address
      ensures EachForAnother(waits)
    {
      hide Valid, Spent, Sleeps, Watching, AfterEvents, TimeLeft, EachForAnother, SameFrom, NeverQuiet, AskedBefore, NoneStops;
      assert EachForAnother([]) by { WaitsNone(); }
      looks, from, waits, onItsWay, asked := [], 0, [], {}, [];
      var here: Option<string> := None;
      var loaded: Option<string> := None;
      var quietSince := Monotonic();
      var moved := false;
      var t := Monotonic();
      NothingSeen(quietSince, now);
      SleepsMore(0);
      while t < deadline
        invariant now >= t
        invariant Watching(looks, asked, from, here, moved, quietSince, now)
        invariant looks == [] ==> onItsWay == {}
        invariant now - Spent(calls) == old(now - Spent(calls)) + Sleeps(|looks|)
        invariant if waits == [] then loaded == None else loaded == Some(waits[|waits| - 1].1)
        invariant EachForAnother(waits)
        decreases TimeLeft(t, deadline)
      {
        ghost var turn := t;
        SleepsMore(|looks|);
        var exit;
        exit, here, loaded, moved, quietSince, from, waits := Turn(here, loaded, moved, quietSince, from, waits);
        if exit.Some? {
          return true, exit.value, from, waits;
        }
        Call(LOOK);
        t := Monotonic();
        WatchingLater(looks, asked, from, here, moved, quietSince, now);
        LookLasts(turn, t, deadline);
      }
      WatchedOut(looks, asked, from, here, moved, quietSince, now);
      settled, why := !moved && onItsWay == {}, Deadline;
    }

    /** A turn: the page's load and a verification, and one look. */
    method Turn(before: Option<string>, loadedBefore: Option<string>, hasMoved: bool, since: real,
                ghost first: nat, ghost waitedBefore: seq<(string, string)>)
      returns (exit: Option<Exit>, here: Option<string>, loaded: Option<string>, moved: bool, quietSince: real,
               ghost from: nat, ghost waits: seq<(string, string)>)
      requires Valid() && Watching(looks, asked, first, before, hasMoved, since, now) && EachForAnother(waitedBefore)
      requires if waitedBefore == [] then loadedBefore == None else loadedBefore == Some(waitedBefore[|waitedBefore| - 1].1)
      modifies this
      ensures now >= old(now) && EachForAnother(waits) && now - Spent(calls) == old(now - Spent(calls))
      ensures |looks| == |old(looks)| + if exit == Some(Stopped) then 0 else 1
      ensures if waits == [] then loaded == None else loaded == Some(waits[|waits| - 1].1)
      ensures exit == None ==> looks != [] && Watching(looks, asked, from, here, moved, quietSince, now)
      ensures exit in {None, Some(Stopped), Some(Quiet)} && AskedBefore(looks)
      ensures exit == Some(Stopped) ==> asked != [] && asked[|asked| - 1] && NeverQuiet(looks)
      ensures NoneStops(if exit == Some(Stopped) then asked[..|asked| - 1] else asked)
      ensures exit == Some(Quiet) ==>
                && from < |looks| && SameFrom(looks, from) && looks[|looks| - 1].read - looks[from].at >= QUIET
                && NeverQuiet(looks[..|looks| - 1])
    {
      hide Valid, Spent, Watching, AfterEvents, EachForAnother, SameFrom, NeverQuiet, AskedBefore, NoneStops;
      ghost var answers, began := asked, now;
      here, moved, quietSince, from := before, hasMoved, since, first;
      var stop;
      ghost var waited;
      stop, loaded, waited := Arrive(loadedBefore);
      WaitsGrow(waitedBefore, waited);
      waits := waitedBefore + waited;
      WatchingAsked(looks, answers, from, here, moved, quietSince, began, asked);
      if stop {
        exit := Some(Stopped);
        return;
      }
      WatchingLater(looks, answers, from, here, moved, quietSince, now);
      var quiet;
      quiet, here, moved, quietSince, from := Watch(here, moved, quietSince, from, answers);
      if !quiet { WatchingAsked(looks, asked, from, here, moved, quietSince, now, asked); }
      exit := if quiet then Some(Quiet) else None;
    }

    /** One look: at another address, or with a page on its way, the quiet begins anew, and with the same
        one it lasts, and is told as soon as it has lasted. `before` is what had been answered about a
        verification when this turn began. */
    method Watch(address0: Option<string>, hasMoved: bool, since: real, ghost first: nat, ghost before: seq<bool>)
      returns (quiet: bool, here: Option<string>, moved: bool, quietSince: real, ghost from: nat)
      requires Valid() && Watching(looks, before, first, address0, hasMoved, since, now)
      requires asked == before + [false] || (asked == before && onItsWay != {})
      modifies this`now, this`calls, this`looks
      ensures now >= old(now) && |looks| == |old(looks)| + 1 && looks[..|old(looks)|] == old(looks)
      ensures now - Spent(calls) == old(now - Spent(calls))
      ensures looks[|looks| - 1] == Look(old(now), here, now, |asked|)
      ensures here == if onItsWay != {} then None else Some(address)
      ensures from < |looks| && quiet == (looks[|looks| - 1].read - looks[from].read >= QUIET)
      ensures !quiet ==> Watching(looks, asked, from, here, moved, quietSince, now)
      ensures quiet ==> SameFrom(looks, from) && looks[|looks| - 1].read - looks[from].at >= QUIET
      ensures quiet ==> NeverQuiet(looks[..|looks| - 1]) && AskedBefore(looks) && NoneStops(asked)
    {
      hide Valid, Spent, Watching, SameFrom, NeverQuiet, AskedBefore;
      ghost var seen, at := looks, now;
      quiet, moved, quietSince, from := false, hasMoved, since, first;
      here := if onItsWay != {} then None else Some(address);
      if here == None || here != address0 {
        moved := hasMoved || address0 != None || here == None;
        from := |seen|;
        quietSince := Monotonic();
      } else {
        var t := Monotonic();
        quiet := t - quietSince >= QUIET;
      }
      ghost var look := Look(at, here, now, |asked|);
      looks := looks + [look];
      WatchingLook(seen, look, before, asked, first, address0, hasMoved, since);
    }

    /** A page's load, waited for once: not again for the address it was last waited for. */
    method AwaitLoad(loaded: Option<string>) returns (after: Option<string>, ghost waited: seq<(string, string)>)
      requires Valid()
      modifies this`now, this`calls, this`address, this`onItsWay
      ensures now >= old(now) && now - Spent(calls) == old(now - Spent(calls))
      ensures waited == [] <==> Some(old(address)) == loaded
      ensures waited == [] ==> after == loaded && calls == old(calls) && onItsWay == old(onItsWay) && address == old(address)
      ensures waited != [] ==>
                && waited == [(old(address), address)] && after == Some(address) && calls == old(calls) + 1
                && onItsWay == AfterEvents(old(onItsWay), events(old(calls)))
    {
      after, waited := loaded, [];
      if Some(address) != loaded {
        ghost var waitedFor := address;
        Call(0.0);
        after := Some(address);
        waited := [(waitedFor, address)];
      }
    }

    /** With no page on its way, its load is waited for and, with none started meanwhile, whether a
        verification stands there is asked. A page on its way is left alone. */
    method Arrive(loaded: Option<string>) returns (stop: bool, after: Option<string>, ghost waited: seq<(string, string)>)
      requires Valid()
      modifies this`now, this`calls, this`address, this`onItsWay, this`asked
      ensures now >= old(now) && |waited| <= 1 && now - Spent(calls) == old(now - Spent(calls))
      ensures waited == [] ==> after == loaded
      ensures waited != [] ==> waited[0].0 == old(address) && Some(waited[0].0) != loaded && after == Some(waited[0].1)
      ensures waited != [] <==> old(onItsWay) == {} && Some(old(address)) != loaded
      // asked exactly when nothing is on its way once the load was waited for
      ensures var onItsWay' := if waited != [] then AfterEvents({}, events(old(calls))) else old(onItsWay);
              asked == old(asked) + if onItsWay' == {} then [verification(old(calls) + |waited|)] else []
      ensures stop == (|asked| > |old(asked)| && asked[|asked| - 1])
      ensures asked == old(asked) ==> onItsWay != {}
      ensures old(onItsWay) != {} ==> calls == old(calls)
    {
      hide AfterEvents;
      stop, after, waited := false, loaded, [];
      if onItsWay == {} {
        after, waited := AwaitLoad(loaded);
        if onItsWay == {} {
          stop := AtVerification();
        }
      }
    }

    /** Whether a verification stands in the way. */
    method AtVerification() returns (stop: bool)
      requires Valid()
      modifies this`now, this`calls, this`address, this`onItsWay, this`asked
      ensures now >= old(now) && calls == old(calls) + 1 && now - Spent(calls) == old(now - Spent(calls))
      ensures stop == verification(old(calls)) && asked == old(asked) + [stop]
    {
      stop := verification(calls);
      Call(0.0);
      asked := asked + [stop];
    }
  }

  /** What sleeping between looks takes, `n` times. */
  function Sleeps(n: nat): real {
    if n == 0 then 0.0 else Sleeps(n - 1) + LOOK
  }

  lemma SleepsMore(n: nat)
    ensures Sleeps(n + 1) == Sleeps(n) + LOOK && Sleeps(0) == 0.0
  {
  }

  function TimeLeft(t: real, deadline: real): nat {
    if t < deadline then ((deadline - t) / LOOK).Floor + 1 else 0
  }

  lemma LookLasts(before: real, t: real, deadline: real)
    requires before < deadline && before + LOOK <= t
    ensures TimeLeft(t, deadline) < TimeLeft(before, deadline)
  {
  }

  /** No address is waited for twice running. */
  ghost predicate EachForAnother(waits: seq<(string, string)>) {
    forall i | 0 < i < |waits| :: waits[i].0 != waits[i - 1].1
  }

  lemma WaitsNone()
    ensures EachForAnother([])
  {
  }

  lemma WaitsGrow(waits: seq<(string, string)>, waited: seq<(string, string)>)
    requires EachForAnother(waits) && |waited| <= 1
    requires waits != [] && waited != [] ==> waited[0].0 != waits[|waits| - 1].1
    ensures EachForAnother(waits + waited)
  {
    var longer := waits + waited;
    assert forall i | 0 <= i < |waits| :: longer[i] == waits[i];
  }

  lemma LookTaken(looks: seq<Look>, look: Look, from: nat)
    ensures look.here.Some? ==> SameFrom(looks + [look], |looks|)
    ensures from < |looks| && SameFrom(looks, from) && look.here == looks[from].here && look.here.Some? ==> SameFrom(looks + [look], from)
    ensures looks != [] && SameFrom(looks, 0) ==> looks[|looks| - 1].here.Some?
    ensures looks != [] && !SameFrom(looks, 0) ==> !SameFrom(looks + [look], 0)
    ensures looks != [] && SameFrom(looks, 0) ==>
              (SameFrom(looks + [look], 0) <==> look.here.Some? && look.here == looks[|looks| - 1].here)
    ensures looks == [] ==> (SameFrom(looks + [look], 0) <==> look.here.Some?)
  {
    var longer := looks + [look];
    assert forall j | 0 <= j < |looks| :: longer[j] == looks[j];
    assert longer[|looks|] == look;
  }

  /** `here` is what the last look saw, and first saw at number `from`; `moved` says whether any look
      saw a page on its way or another address than the one before. */
  ghost predicate Tracks(looks: seq<Look>, from: nat, here: Option<string>, moved: bool) {
    if looks == [] then here == None && !moved && from == 0
    else
      && from < |looks| && looks[|looks| - 1].here == looks[from].here == here
      && (here.Some? ==> SameFrom(looks, from))
      && (from > 0 ==> looks[from].here != looks[from - 1].here || looks[from].here.None?)
      && (moved <==> !SameFrom(looks, 0))
      && (!moved ==> from == 0)
  }

  /** No look up to which the address was the same, and nothing on its way, for all of QUIET. */
  ghost predicate NeverQuiet(looks: seq<Look>) {
    forall i, j | 0 <= i <= j < |looks| && SameFrom(looks[..j + 1], i) :: looks[j].read - looks[i].read < QUIET
  }

  /** Before each look that saw an address it was asked whether a verification stands there. */
  ghost predicate AskedBefore(looks: seq<Look>) {
    forall i | 0 <= i < |looks| :: AskedAt(looks, i)
  }

  predicate AskedAt(looks: seq<Look>, i: nat)
    requires i < |looks|
  {
    AskedFor(if i == 0 then 0 else looks[i - 1].asked, looks[i])
  }

  predicate AskedFor(before: nat, look: Look) {
    look.asked == before + 1 || (look.asked == before && look.here.None?)
  }

  lemma AskedBeforeThis(looks: seq<Look>, look: Look)
    requires AskedBefore(looks) && AskedFor(if looks == [] then 0 else looks[|looks| - 1].asked, look)
    ensures AskedBefore(looks + [look])
  {
    hide AskedFor;
    var longer := looks + [look];
    forall i: nat | i < |longer|
      ensures AskedAt(longer, i)
    {
      if i < |looks| { assert AskedAt(looks, i); }
    }
  }

  /** The clock is read after each look, and `since` is what it said when number `from` had been taken. */
  ghost predicate Timed(looks: seq<Look>, from: nat, since: real, now: real) {
    && (forall i | 0 <= i < |looks| :: looks[i].at <= looks[i].read <= now)
    && (forall i, j | 0 <= i < j < |looks| :: looks[i].read <= looks[j].read)
    && (looks != [] ==> from < |looks| && since == looks[from].read)
  }

  lemma TimedGrows(looks: seq<Look>, look: Look, from: nat, since: real)
    requires Timed(looks, from, since, look.at) && look.at <= look.read
    ensures var longer := looks + [look];
            && Timed(longer, |looks|, look.read, look.read)
            && (looks != [] ==> Timed(longer, from, since, look.read) && from < |looks| && looks[from].at <= longer[from].read == since)
  {
    var longer := looks + [look];
    assert longer[|looks|] == look && forall i | 0 <= i < |looks| :: longer[i] == looks[i];
  }

  /** The quiet has lasted from the look its address was first seen at, and no other lasted longer. */
  lemma NeverQuietGrows(looks: seq<Look>, look: Look, from: nat, here: Option<string>, moved: bool, since: real)
    requires Tracks(looks, from, here, moved) && Timed(looks, from, since, look.at) && look.at <= look.read && NeverQuiet(looks)
    requires look.here == None || look.here != here || look.read - since < QUIET
    ensures NeverQuiet(looks + [look])
  {
    hide Tracks, SameFrom, Timed, NeverQuiet;
    var longer := looks + [look];
    forall i, j | 0 <= i <= j < |longer| && SameFrom(longer[..j + 1], i)
      ensures longer[j].read - longer[i].read < QUIET
    {
      if j < |looks| {
        assert longer[..j + 1] == looks[..j + 1] && longer[i] == looks[i] && longer[j] == looks[j];
        RunIsShort(looks, i, j);
      } else if i < |looks| {
        assert longer[..j + 1] == longer && longer[j] == look && longer[i] == looks[i];
        RunIsTheLast(looks, look, from, here, moved, i);
        ReadInOrder(looks, from, since, look.at, i);
      }
    }
    assert NeverQuiet(longer) by { AllShort(longer); }
  }

  lemma RunIsShort(looks: seq<Look>, i: nat, j: nat)
    requires NeverQuiet(looks) && i <= j < |looks| && SameFrom(looks[..j + 1], i)
    ensures looks[j].read - looks[i].read < QUIET
  {
  }

  lemma AllShort(looks: seq<Look>)
    requires forall i, j | 0 <= i <= j < |looks| && SameFrom(looks[..j + 1], i) :: looks[j].read - looks[i].read < QUIET
    ensures NeverQuiet(looks)
  {
  }

  lemma ReadInOrder(looks: seq<Look>, from: nat, since: real, now: real, i: nat)
    requires Timed(looks, from, since, now) && from <= i < |looks|
    ensures since <= looks[i].read
  {
  }

  /** A run of one address up to a new look is part of the last one there was. */
  lemma RunIsTheLast(looks: seq<Look>, look: Look, from: nat, here: Option<string>, moved: bool, i: nat)
    requires Tracks(looks, from, here, moved) && i < |looks| && SameFrom(looks + [look], i)
    ensures look.here == here && look.here.Some? && from <= i
  {
    var longer := looks + [look];
    assert longer[|looks|] == look && longer[|looks| - 1] == looks[|looks| - 1] && longer[i] == looks[i];
    if from > 0 {
      assert longer[from] == looks[from] && longer[from - 1] == looks[from - 1];
    }
  }

  // ---- what a wait keeps track of ----

  predicate NoneStops(asked: seq<bool>) {
    forall i | 0 <= i < |asked| :: !asked[i]
  }

  ghost predicate Watching(looks: seq<Look>, asked: seq<bool>, from: nat, here: Option<string>, moved: bool, since: real, now: real) {
    && Tracks(looks, from, here, moved) && Timed(looks, from, since, now)
    && NeverQuiet(looks) && AskedBefore(looks) && NoneStops(asked)
    && |asked| == if looks == [] then 0 else looks[|looks| - 1].asked
  }

  lemma NothingSeen(since: real, now: real)
    ensures Watching([], [], 0, None, false, since, now)
  {
  }

  lemma WatchingLater(looks: seq<Look>, asked: seq<bool>, from: nat, here: Option<string>, moved: bool, since: real, later: real)
    requires exists now: real :: now <= later && Watching(looks, asked, from, here, moved, since, now)
    ensures Watching(looks, asked, from, here, moved, since, later)
  {
    hide Tracks, NeverQuiet, AskedBefore;
  }

  /** An answer more, or none. */
  lemma WatchingAsked(looks: seq<Look>, asked: seq<bool>, from: nat, here: Option<string>, moved: bool, since: real, now: real, more: seq<bool>)
    requires exists now: real :: Watching(looks, asked, from, here, moved, since, now)
    requires more == asked || (|more| == |asked| + 1 && more[..|asked|] == asked)
    ensures NeverQuiet(looks) && AskedBefore(looks) && NoneStops(asked)
    ensures |more| > |asked| ==> more[..|more| - 1] == asked
  {
    hide Tracks, NeverQuiet, AskedBefore;
  }

  lemma WatchingLook(looks: seq<Look>, look: Look, before: seq<bool>, asked: seq<bool>, from: nat, here: Option<string>, moved: bool, since: real)
    requires Watching(looks, before, from, here, moved, since, look.at) && look.at <= look.read && look.asked == |asked|
    requires asked == before + [false] || (asked == before && look.here.None?)
    ensures var longer := looks + [look];
            && longer[..|looks|] == looks && AskedBefore(longer) && NoneStops(asked) && NeverQuiet(looks)
            && if look.here == None || look.here != here then
                 Watching(longer, asked, |looks|, look.here, moved || here != None || look.here == None, look.read, look.read)
               else
                 && from < |looks| && SameFrom(longer, from) && looks[from].at <= longer[from].read == since
                 && (look.read - since < QUIET ==> Watching(longer, asked, from, here, moved, since, look.read))
  {
    hide NeverQuiet, AskedBefore, Timed, SameFrom;
    LookFollows(looks, look, from, here, moved);
    TimedGrows(looks, look, from, since);
    AskedBeforeThis(looks, look);
    if look.here == None || look.here != here || look.read - since < QUIET {
      NeverQuietGrows(looks, look, from, here, moved, since);
    }
  }

  lemma WatchedOut(looks: seq<Look>, asked: seq<bool>, from: nat, here: Option<string>, moved: bool, since: real, now: real)
    requires Watching(looks, asked, from, here, moved, since, now)
    ensures NeverQuiet(looks) && AskedBefore(looks) && NoneStops(asked)
    ensures moved <==> looks != [] && !SameFrom(looks, 0)
  {
    hide NeverQuiet, AskedBefore, Timed, SameFrom;
  }

  lemma TracksNone(from: nat, here: Option<string>, moved: bool)
    requires Tracks([], from, here, moved)
    ensures !moved
  {
  }

  lemma TracksOne(looks: seq<Look>, from: nat, here: Option<string>, moved: bool)
    requires Tracks(looks, from, here, moved) && here.Some?
    ensures from < |looks| && SameFrom(looks, from)
  {
  }

  lemma TracksMoves(looks: seq<Look>, from: nat, here: Option<string>, moved: bool)
    requires Tracks(looks, from, here, moved) && looks != []
    ensures moved <==> !SameFrom(looks, 0)
  {
  }

  lemma LookFollows(looks: seq<Look>, look: Look, from: nat, here: Option<string>, moved: bool)
    requires Tracks(looks, from, here, moved)
    ensures if look.here == None || look.here != here then
              Tracks(looks + [look], |looks|, look.here, moved || here != None || look.here == None)
            else Tracks(looks + [look], from, here, moved) && looks != []
  {
    hide SameFrom;
    LookTaken(looks, look, from);
  }

  /** Every look from number `i` on saw one address and no page on its way. */
  ghost predicate SameFrom(looks: seq<Look>, i: nat) {
    forall j | i <= j < |looks| :: looks[j].here.Some? && looks[j].here == looks[i].here
  }
}
