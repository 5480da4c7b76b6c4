/**
 Installing, launching and replacing the helper, as the code runs: step by step over the folder's
 fields, with the launcher and helpers coming in between as `others` says. Every method is tied to
 the actions of `SetupProtocol`, so what every interleaving keeps holds of it too.
 */
module Setup {
  import opened Wrappers
  import opened SetupProtocol

  datatype Outcome = Installed | InUse | BuildFailed

  datatype LaunchResult = Started(version: string) | Shown | NotInstalled

  /** `helper.lock`, as one process sees it: `file` is held open while this process has the lock. */
  class InstanceLock {
    const home: Home
    var file: bool

    constructor (home: Home)
      ensures this.home == home && !file
    {
      this.home := home;
      this.file := false;
    }

    method Acquire() returns (held: bool)
      requires !file
      modifies this`file, home`tool
      ensures held == (home.helper.None? && !old(home.tool)) == file
      ensures home.tool == (held || old(home.tool))
    {
      if home.helper.Some? || home.tool {
        return false;
      }
      home.tool, file := true, true;
      return true;
    }

    method Release()
      requires file ==> home.tool
      modifies this`file, home`tool
      ensures !file && home.tool == (old(home.tool) && !old(file))
    {
      if file {
        home.tool, file := false, false;
      }
    }
  }

  class Home {
    var folders: map<Folder, nat>
    var current: Option<string>
    var previous: Option<string>
    /** Written only by 0.1.0's automatic update. */
    var pending: Option<string>
    var helper: Option<Helper>
    /** The lock is taken for a moment by an installer or a launcher. */
    var tool: bool
    var quit: Option<nat>
    var show: bool
    var builds: nat
    var time: nat

    ghost function Now(): Disk
      reads this
    {
      Disk(folders, current, previous, helper, quit, show, builds, time)
    }

    constructor ()
      ensures State(Now(), Idle) == EMPTY && pending == None && !tool
    {
      folders, current, previous, pending, helper := map[], None, None, None, None;
      tool, quit, show, builds, time := false, None, false, 0, 0;
    }

    /** Whether a helper holds the lock, asked by taking it for a moment. */
    method HelperRunning() returns (running: bool)
      requires !tool
      modifies this`tool
      ensures !tool && running == helper.Some?
    {
      var lock := new InstanceLock(this);
      var held := lock.Acquire();
      if held {
        lock.Release();
      }
      running := !held;
    }

    /** A person answers, and others do what they do meanwhile. */
    method Wait(moves: seq<Move>)
      requires !tool
      modifies this
      ensures !tool && pending == old(pending) && (Safe(old(Now())) ==> Safe(Now()))
      ensures Now() == MovedAll(old(Now()), moves)
      ensures (folders, current, previous, builds) == old((folders, current, previous, builds))
    {
      hide Safe, Act, Run, Others, MovedAll;
      ghost var s := State(Now(), Idle);
      Interfere(moves);
      OthersRun(s, moves);
      if Safe(s.disk) {
        RunKeepsInv(s, Others(moves));
      }
    }

    /** What others do while this process waits. */
    method Interfere(moves: seq<Move>)
      requires !tool
      modifies this
      ensures !tool && pending == old(pending) && Now() == MovedAll(old(Now()), moves)
    {
      for i := 0 to |moves|
        invariant !tool && pending == old(pending)
        invariant MovedAll(old(Now()), moves) == MovedAll(Now(), moves[i..])
      {
        match moves[i] {
          case LauncherRuns => var _ := LaunchNow();
          case HelperEnds => helper := None; time := time + 1;
          case HelperLooks => LookForRequest();
          case HelperTakes => TakeAway();
        }
        assert moves[i..][1..] == moves[i + 1..];
      }
    }

    method LookForRequest()
      modifies this`helper, this`time
      ensures Now() == Looked(old(Now())).(time := old(time) + 1)
    {
      if helper.Some? && helper.value.seen.None? && (quit.Some? || show) {
        var asked := if quit.Some? then ToQuit(quit.value) else ToShow;
        helper := Some(helper.value.(seen := Some(asked)));
      }
      time := time + 1;
    }

    method TakeAway()
      modifies this`quit, this`show, this`helper, this`time
      ensures Now() == Taken(old(Now())).(time := old(time) + 1)
    {
      if helper.Some? && helper.value.seen.Some? {
        quit, show := None, false;
        helper := Some(helper.value.(seen := None, quitting := helper.value.Due()));
      }
      time := time + 1;
    }

    /** What the launcher or an installer left the running helper: looked for, and then taken away, with
        launchers coming in between. */
    method TakeRequest(between: seq<Move>) returns (asked: Option<Request>)
      requires !tool && helper.Some? && helper.value.seen.None? && forall m | m in between :: m == LauncherRuns
      modifies this
      // ending wins
      ensures asked == if old(quit).Some? then Some(ToQuit(old(quit).value)) else if old(show) then Some(ToShow) else None
      // what was asked is taken, once, and all that stands with it
      ensures asked.Some? ==>
                && quit == None && !show
                && helper == Some(old(helper).value.(quitting := if asked.value.ToQuit? then old(quit) else old(helper).value.quitting))
      ensures asked.None? ==> quit == None && helper == old(helper) && show == (between != [])
      ensures !tool && (folders, current, previous, pending, builds) == old((folders, current, previous, pending, builds))
    {
      LookForRequest();
      asked := helper.value.seen;
      LaunchersShow(Now(), between);
      Interfere(between);
      TakeAway();
    }

    /** One attempt at launching: with the lock, the current version is started. */
    method LaunchNow() returns (result: LaunchResult)
      requires !tool
      modifies this`quit, this`show, this`helper, this`time, this`tool
      ensures !tool && Now() == Launched(old(Now())).(time := old(time) + 1)
      ensures result == if old(helper).Some? then Shown
                        else if CanStart(old(Now())) then Started(current.value) else NotInstalled
    {
      var lock := new InstanceLock(this);
      var held := lock.Acquire();
      result := Launch(lock);
    }

    /** What follows the attempts to take the lock. */
    method Launch(lock: InstanceLock) returns (result: LaunchResult)
      requires lock.home == this && lock.file == tool == helper.None?
      modifies this`quit, this`show, this`helper, this`time, this`tool, lock`file
      ensures !tool && Now() == Launched(old(Now())).(time := old(time) + 1)
      ensures result == if old(helper).Some? then Shown
                        else if CanStart(old(Now())) then Started(current.value) else NotInstalled
    {
      if !lock.file {
        show := true;
        result := Shown;
      } else {
        // holding the lock, no helper runs: a request left for one is stale
        quit := None;
        lock.Release();
        if current.Some? && Final(current.value) in folders {
          helper := Some(Helper(current.value, folders[Final(current.value)], time, None, None));
          result := Started(current.value);
        } else {
          result := NotInstalled;
        }
      }
      time := time + 1;
    }

    /** The helper runs the build that is in its version's folder. */
    ghost predicate RunsItsFolder()
      reads this
    {
      helper.Some? ==>
        Final(helper.value.version) in folders && helper.value.build == folders[Final(helper.value.version)]
    }

    /** Launching while the helper before may still be ending: its lock is tried again every half
        second, for `wait` seconds. */
    method LaunchWaiting(wait: real, others: nat -> seq<Move>)
      returns (result: LaunchResult, ghost trace: seq<Action>, rounds: nat)
      requires !tool
      modifies this
      ensures !tool && pending == old(pending)
      ensures (folders, current, previous, builds) == old((folders, current, previous, builds))
      ensures forall i :: Run(State(old(Now()), i), trace) == State(Now(), i)
      ensures ByOthers(trace) && (Safe(old(Now())) ==> Safe(Now()))
      ensures rounds == 0 ==> trace == [Other(LauncherRuns)]
      // it waits exactly as long as a helper holds the lock, and no longer than `wait`, and launches then
      ensures forall i | 0 <= i < rounds :: AfterRounds(old(Now()), others, i).helper.Some?
      ensures rounds as real * 0.5 < wait ==> AfterRounds(old(Now()), others, rounds).helper.None?
      ensures var d := AfterRounds(old(Now()), others, rounds); Now() == Launched(d).(time := d.time + 1)
      ensures rounds > 0 ==> (rounds - 1) as real * 0.5 < wait
      ensures result.Shown? ==> helper.Some? && show && rounds as real * 0.5 >= wait
      ensures result.Started? ==> helper.Some? && Some(result.version) == current == Some(helper.value.version)
                                  && helper.value.started >= old(time) && helper.value.Due() == None
                                  && RunsItsFolder()
      ensures !result.Shown? ==> quit.None?
      ensures result.NotInstalled? ==> current == None || Final(current.value) !in folders
    {
      hide Safe, Act, MovedAll, Others, AfterRounds, RunsInto, Run;
      var lock := new InstanceLock(this);
      ghost var s0 := old(Now());
      trace, rounds := TryLock(lock, wait, others);
      ghost var before := Now();
      result := Launch(lock);
      LaunchedRuns(s0, trace, before);
      trace := trace + [Other(LauncherRuns)];
      if Safe(s0) {
        RunsSafely(s0, trace, Now());
      }
      RunsForAll(s0, trace, Now());
    }

    /** The attempts to take the lock. */
    method TryLock(lock: InstanceLock, wait: real, others: nat -> seq<Move>) returns (ghost trace: seq<Action>, rounds: nat)
      requires !tool && lock.home == this && !lock.file
      modifies this, lock`file
      ensures pending == old(pending) && lock.file == tool == helper.None?
      ensures (folders, current, previous, builds) == old((folders, current, previous, builds)) && time >= old(time)
      ensures RunsInto(old(Now()), trace, Now()) && ByOthers(trace) && (rounds == 0 ==> trace == [])
      ensures Now() == AfterRounds(old(Now()), others, rounds)
      ensures forall i | 0 <= i < rounds :: AfterRounds(old(Now()), others, i).helper.Some?
      ensures rounds > 0 ==> (rounds - 1) as real * 0.5 < wait
      ensures rounds as real * 0.5 < wait ==> helper.None?
    {
      hide Safe, Act, MovedAll, Others, AfterRounds, RunsInto, Run;
      var waited := 0.0;
      ghost var s0 := old(Now());
      trace, rounds := [], 0;
      RunsNowhere(s0, others);
      var held := lock.Acquire();
      while !held && waited < wait
        invariant lock.home == this && pending == old(pending) && (rounds == 0 ==> trace == [])
        invariant held == lock.file == tool == helper.None?
        invariant waited == rounds as real * 0.5
        invariant rounds > 0 ==> (rounds - 1) as real * 0.5 < wait
        invariant RunsInto(s0, trace, Now())
        invariant ByOthers(trace) && time >= old(time) && Now() == AfterRounds(s0, others, rounds)
        invariant forall i | 0 <= i < rounds :: AfterRounds(s0, others, i).helper.Some?
        invariant (folders, current, previous, builds) == old((folders, current, previous, builds))
        decreases if waited < wait then ((wait - waited) * 2.0).Floor + 1 else 0
      {
        ghost var before := Now();
        Interfere(others(rounds));
        waited := waited + 0.5;
        OneMoreRound(s0, trace, before, others, rounds);
        trace := trace + Others(others(rounds));
        rounds := rounds + 1;
        held := lock.Acquire();
      }
    }

    /** A new version is in place while a helper runs: ask it to end, then start the current version
        once its lock is free. */
    method ReplaceRunning(wait: real, others: nat -> seq<Move>)
      returns (result: LaunchResult, ghost trace: seq<Action>, rounds: nat, ghost gone: bool)
      requires !tool
      modifies this
      ensures !tool && pending == old(pending)
      ensures (folders, current, previous, builds) == old((folders, current, previous, builds))
      ensures Run(State(old(Now()), Idle), trace) == State(Now(), Idle) && AskQuit in trace
      ensures Safe(old(Now())) ==> Safe(Now())
      // no way out leaves the request behind
      ensures quit == None
      // a version is started only once the lock was free: whoever holds it is a new process
      ensures result.Started? ==> helper.Some? && helper.value.started > old(time) && helper.value.Due() == None
                                  && Some(result.version) == current == Some(helper.value.version) && RunsItsFolder()
      ensures result.NotInstalled? ==> current == None || Final(current.value) !in folders
      // otherwise some helper still runs, asked to show itself, after the whole wait
      ensures result.Shown? ==> helper.Some? && show && rounds as real * 0.5 >= wait
      // it is the one from before, ending for this request or as it was before; for this one if the request
      // was `gone` when it was to be withdrawn, unless it was just taking another away; or it is one that
      // started meanwhile and is not ending
      ensures result.Shown? && Safe(old(Now())) ==>
                if helper.value.started < old(time) then
                  && old(helper).Some? && helper.value.Is(old(helper).value)
                  && helper.value.Due() in {old(helper).value.Due(), Some(old(time))}
                  && (gone && old(helper).value.seen.None? ==> helper.value.Due() == Some(old(time)))
                else helper.value.Due().None?
      ensures rounds > 0 ==> (rounds - 1) as real * 0.5 < wait
    {
      hide Act, MovedAll, Others, AfterRounds, Run, AskedStill, Safe;
      ghost var s0 := State(Now(), Idle);
      quit, time := Some(time), time + 1;
      ghost var during;
      result, during, rounds := LaunchWaiting(wait, others);
      gone := quit.None?;
      ghost var d := Now();
      quit, time := None, time + 1;
      trace := [AskQuit] + during + [Withdraw];
      AskedAndWithdrawn(s0.disk, during, d);
      if Safe(s0.disk) {
        RunKeepsInv(s0, trace);
        AskedWhileWaiting(s0, during);
        WhatBecame(s0.disk, d);
      }
    }

    /** One command of a build, `ok` when it passes; a failed one takes the `.partial` with it. */
    method RunCommand(version: string, running: bool, done: nat, ok: bool, moves: seq<Move>)
      returns (ghost acts: seq<Action>)
      requires !tool && done < COMMANDS
      modifies this
      ensures !tool && pending == old(pending) && Killed !in acts
      ensures Run(State(old(Now()), Building(version, running, done)), acts)
           == State(Now(), if ok then Building(version, running, done + 1) else Idle)
      ensures folders == if !ok then old(folders) - {Partial(version)}
                         else if done == 0 then old(folders)[Partial(version) := old(builds)] else old(folders)
      ensures builds == old(builds) + if ok && done == 0 then 1 else 0
      ensures (current, previous) == (old(current), old(previous))
    {
      ghost var s0 := State(Now(), Building(version, running, done));
      Interfere(moves);
      acts := Extend(s0, s0, [], moves);
      ghost var at := State(Now(), Building(version, running, done));
      time := time + 1;
      if !ok {
        folders := folders - {Partial(version)};
      } else if done == 0 {
        folders, builds := folders[Partial(version) := builds], builds + 1;
      }
      RunThen(s0, acts, Build(ok));
      acts := acts + [Build(ok)];
    }

    /** The `.partial` becomes the version's folder, unless a helper started on the one in its place:
        asked, removed and renamed with nobody in between. */
    method PutInPlace(version: string, running: bool, moves: seq<Move>)
      returns (inUse: bool, ghost acts: seq<Action>)
      requires !tool && Partial(version) in folders
      modifies this
      ensures !tool && pending == old(pending) && Killed !in acts
      ensures Run(State(old(Now()), Building(version, running, COMMANDS)), acts)
           == State(Now(), if inUse then Idle else Placed(version, running))
      ensures inUse ==> Final(version) in folders && helper.Some?
      ensures var rest := old(folders) - {Partial(version)};
              folders == if inUse then rest else rest[Final(version) := old(folders)[Partial(version)]]
      ensures (current, previous, builds) == (old(current), old(previous), old(builds))
    {
      ghost var s0 := State(Now(), Building(version, running, COMMANDS));
      Interfere(moves);
      acts := Extend(s0, s0, [], moves);
      ghost var at := State(Now(), Building(version, running, COMMANDS));
      inUse := false;
      if Final(version) in folders {
        inUse := HelperRunning();
      }
      time := time + 1;
      var build := folders[Partial(version)];
      folders := folders - {Partial(version)};
      if !inUse {
        folders := folders[Final(version) := build];
      }
      RunThen(s0, acts, Place);
      acts := acts + [Place];
    }

    /** Builds `versions/<version>/` as a `.partial` and renames it once every command passed.
        `ok(n)` says whether command n passes. */
    method InstallVersion(version: string, running: bool, ok: nat -> bool, others: nat -> seq<Move>)
      returns (outcome: Outcome, ghost trace: seq<Action>)
      requires !tool && Partial(version) !in folders
      modifies this
      ensures !tool && pending == old(pending) && Killed !in trace
      ensures Run(State(old(Now()), Building(version, running, 0)), trace)
           == State(Now(), if outcome.Installed? then Placed(version, running) else Idle)
      ensures outcome.BuildFailed? <==> !(ok(0) && ok(1) && ok(2))
      ensures outcome.InUse? ==> Final(version) in folders && helper.Some?
      ensures folders == if outcome.Installed? then old(folders)[Final(version) := old(builds)] else old(folders)
      ensures (current, previous) == (old(current), old(previous))
    {
      hide Act, Run, Others, MovedAll;
      ghost var s0 := State(Now(), Building(version, running, 0));
      trace := [];
      RunNothing(s0);
      var done := 0;
      while done < COMMANDS
        invariant 0 <= done <= COMMANDS && !tool && pending == old(pending) && Killed !in trace
        invariant Run(s0, trace) == State(Now(), Building(version, running, done))
        invariant folders == if done == 0 then old(folders) else old(folders)[Partial(version) := old(builds)]
        invariant done == 0 ==> builds == old(builds)
        invariant (current, previous) == (old(current), old(previous))
        invariant forall n | 0 <= n < done :: ok(n)
      {
        ghost var acts := RunCommand(version, running, done, ok(done), others(done));
        RunParts(s0, trace, acts);
        trace := trace + acts;
        if !ok(done) {
          assert folders == old(folders);
          return BuildFailed, trace;
        }
        done := done + 1;
      }
      var inUse;
      ghost var acts;
      inUse, acts := PutInPlace(version, running, others(done));
      RunParts(s0, trace, acts);
      trace := trace + acts;
      assert folders == if inUse then old(folders) else old(folders)[Final(version) := old(builds)];
      outcome := if inUse then InUse else Installed;
    }

    /** Everything `install.pyw` does once the person confirmed. A folder in `held` cannot be removed. */
    method Install(version: string, ok: nat -> bool, held: set<Folder>, others: nat -> seq<Move>)
      returns (outcome: Outcome, ghost trace: seq<Action>)
      requires !tool
      modifies this
      ensures !tool && Killed !in trace
      ensures Run(State(old(Now()), Idle), trace) == State(Now(), Idle)
      ensures Safe(old(Now())) ==> Safe(Now())
      // failed or refused: the versions, and what is current, are as they were
      ensures !outcome.Installed? ==>
                && Versions(Now()) == Versions(old(Now())) && pending == old(pending)
                && (current, previous) == (old(current), old(previous))
      ensures outcome.BuildFailed? ==> Partial(version) !in folders && !(ok(0) && ok(1) && ok(2))
      // refused only for a version that is there, with a helper running
      ensures outcome.InUse? ==> helper.Some? && Final(version) in folders
      ensures Final(version) !in old(folders) && ok(0) && ok(1) && ok(2) ==> outcome.Installed?
      // installed: the new build is current, the version before it previous
      ensures outcome.Installed? ==>
                && current == Some(version) && pending == None
                && previous == (if old(current).Some? && old(current) != Some(version) then old(current) else old(previous))
                && Final(version) in folders && folders[Final(version)] == old(builds)
      // tidied only when no helper ran at the start, and then down to these two
      ensures outcome.Installed? && old(helper).Some? ==>
                Final(version) !in old(folders) && forall f | f in old(folders) && f.Final? :: f in folders
      ensures outcome.Installed? && old(helper).None? ==>
                forall f | f in folders && f !in held :: f == Final(version) || (previous.Some? && f == Final(previous.value))
    {
      hide Act, Run, Safe, Others, MovedAll;
      ghost var s0 := State(Now(), Idle);
      trace := [];
      RunNothing(s0);
      var running := HelperRunning();
      if running && Final(version) in folders {
        outcome := InUse;
        return;
      }
      ClearPartial(version, running);
      RunThen(s0, [], Begin(version));
      trace := [] + [Begin(version)];
      ghost var acts;
      outcome, acts := InstallVersion(version, running, ok, others);
      RunParts(s0, trace, acts);
      trace := trace + acts;
      if outcome.Installed? {
        acts := RecordAndTidy(version, running, held, others);
        RunParts(s0, trace, acts);
        trace := trace + acts;
      }
      if Safe(s0.disk) {
        RunKeepsInv(s0, trace);
      }
    }

    /** The whole of `install.pyw` after the choice of Python: the install and, when the person says yes,
        the new version in place of a running one, or started. */
    method InstallAndOpen(version: string, ok: nat -> bool, held: set<Folder>, yes: bool, wait: real, others: nat -> seq<Move>)
      returns (outcome: Outcome, launched: Option<LaunchResult>, ghost asked: Disk, ghost trace: seq<Action>)
      requires !tool
      modifies this
      ensures !tool && (Safe(old(Now())) ==> Safe(Now()))
      ensures launched.Some? <==> outcome.Installed? && yes
      // a helper is asked to end exactly when one runs once the install is done, as `asked` has it, and the
      // person says yes
      ensures outcome.Installed? ==>
                && asked.current == Some(version) && Final(version) in asked.folders && asked.folders[Final(version)] == old(builds)
                && (AskQuit in trace <==> yes && asked.helper.Some?)
                && (yes && asked.helper.None? ==> trace == [Other(LauncherRuns)])
                && (exists waited :: Run(State(MovedAll(asked, waited), Idle), trace) == State(Now(), Idle))
      // what is current is the version just installed, and what is started is that very build
      ensures outcome.Installed? ==> current == Some(version) && Final(version) in folders && folders[Final(version)] == old(builds)
      ensures launched.Some? && launched.value.Started? ==>
                && launched.value.version == version
                && helper.Some? && helper.value.version == version && helper.value.build == old(builds)
                && helper.value.Due().None?
      // it is never "not installed", and "shown" leaves a helper running that was asked to show itself
      ensures launched.Some? ==> !launched.value.NotInstalled? && (launched.value.Shown? ==> helper.Some? && show)
    {
      hide Safe, Act, Run, Others, MovedAll;
      launched, trace := None, [];
      ghost var before, gone;
      outcome, before := Install(version, ok, held, others);
      asked := Now();
      if !outcome.Installed? {
        return;
      }
      var running := HelperRunning();
      Wait(others(COMMANDS + 3));
      RunNothing(State(Now(), Idle));
      if yes {
        var result;
        var n;
        if running {
          result, trace, n, gone := ReplaceRunning(wait, others);
        } else {
          result, trace, n := LaunchWaiting(0.0, others);
          NotAsked(trace);
        }
        launched := Some(result);
      }
    }

    method ClearPartial(version: string, running: bool)
      requires running == helper.Some? && !(running && Final(version) in folders)
      modifies this`folders, this`time
      ensures folders == old(folders) - {Partial(version)}
      ensures State(Now(), Building(version, running, 0)) == Step(State(old(Now()), Idle), Begin(version))
    {
      folders, time := folders - {Partial(version)}, time + 1;
    }

    method WriteState(version: string, running: bool)
      modifies this`current, this`previous, this`pending, this`time
      ensures current == Some(version) && pending == None
      ensures previous == if old(current).Some? && old(current) != Some(version) then old(current) else old(previous)
      ensures State(Now(), Tidying(version, running)) == Step(State(old(Now()), Placed(version, running)), Record)
    {
      previous := if current.Some? && current != Some(version) then current else previous;
      current, pending, time := Some(version), None, time + 1;
    }

    method RemoveFolder(folder: Folder, ghost version: string)
      requires !Keeps(Now(), folder)
      modifies this`folders, this`time
      ensures folders == old(folders) - {folder}
      ensures State(Now(), Tidying(version, false)) == Step(State(old(Now()), Tidying(version, false)), Tidy(folder))
    {
      folders, time := folders - {folder}, time + 1;
    }

    /** The state is written, and with no helper running at the start every folder but the current
        and the previous version's goes. */
    method RecordAndTidy(version: string, running: bool, held: set<Folder>, others: nat -> seq<Move>)
      returns (ghost acts: seq<Action>)
      requires !tool
      modifies this
      ensures !tool && Killed !in acts
      ensures Run(State(old(Now()), Placed(version, running)), acts) == State(Now(), Idle)
      ensures current == Some(version) && pending == None
      ensures previous == if old(current).Some? && old(current) != Some(version) then old(current) else old(previous)
      ensures running ==> folders == old(folders)
      ensures !running ==> forall f | f in folders :: f in held || Keeps(Now(), f)
      ensures forall f | f in old(folders) && Keeps(Now(), f) :: f in folders && folders[f] == old(folders)[f]
    {
      hide Act, Run, Others, MovedAll;
      ghost var s0 := State(Now(), Placed(version, running));
      RunNothing(s0);
      Interfere(others(COMMANDS + 1));
      acts := Extend(s0, s0, [], others(COMMANDS + 1));
      OthersOnly(others(COMMANDS + 1));
      WriteState(version, running);
      RunThen(s0, acts, Record);
      acts := acts + [Record];
      if !running {
        ghost var more := TidyFolders(version, held, others);
        RunParts(s0, acts, more);
        acts := acts + more;
      }
      RunThen(s0, acts, Finish);
      acts := acts + [Finish];
      ghost var at := State(Now(), Tidying(version, running));
      time := time + 1;
      assert Step(at, Finish) == State(Now(), Idle) by { FinishIs(at); }
    }

    method TidyFolders(version: string, held: set<Folder>, others: nat -> seq<Move>) returns (ghost acts: seq<Action>)
      requires !tool && current == Some(version)
      modifies this
      ensures !tool && Killed !in acts
      ensures Run(State(old(Now()), Tidying(version, false)), acts) == State(Now(), Tidying(version, false))
      ensures (current, previous, pending) == (old(current), old(previous), old(pending))
      ensures forall f | f in folders :: f in held || Keeps(Now(), f)
      ensures forall f | f in old(folders) && Keeps(Now(), f) :: f in folders && folders[f] == old(folders)[f]
    {
      hide Act, Run, Others, MovedAll;
      ghost var s0 := State(Now(), Tidying(version, false));
      acts := [];
      RunNothing(s0);
      var round: nat := COMMANDS + 2;
      var todo := folders.Keys;
      while todo != {}
        invariant !tool && Killed !in acts
        invariant (current, previous, pending) == (old(current), old(previous), old(pending))
        invariant Run(s0, acts) == State(Now(), Tidying(version, false))
        invariant forall f | f in folders :: f in todo || f in held || Keeps(Now(), f)
        invariant forall f | f in old(folders) && Keeps(Now(), f) :: f in folders && folders[f] == old(folders)[f]
        decreases |todo|
      {
        ghost var before := State(Now(), Tidying(version, false));
        Interfere(others(round));
        acts := Extend(s0, before, acts, others(round));
        OthersOnly(others(round));
        round := round + 1;
        var folder :| folder in todo;
        todo := todo - {folder};
        if !(folder.Final? && (folder.version == version || Some(folder.version) == previous)) && folder !in held {
          RunThen(s0, acts, Tidy(folder));
          acts := acts + [Tidy(folder)];
          RemoveFolder(folder, version);
        }
      }
    }

    /** A version started as the pending one of 0.1.0 takes over. */
    method TakeOver(version: string, held: set<Folder>) returns (taken: bool)
      modifies this`folders, this`current, this`previous, this`pending
      ensures taken == (old(pending) == Some(version))
      ensures !taken ==> Now() == old(Now()) && pending == old(pending)
      ensures taken ==> Now() == TakenOver(old(Now()), version, held) && pending == None
    {
      if pending != Some(version) {
        return false;
      }
      pending := None;
      var before := current;
      if before == Some(version) {
        // the installer already made it current: the version before stays previous
        return true;
      }
      current, previous := Some(version), before;
      folders := map f | f in folders && (f == Final(version) || (f.Final? && Some(f.version) == before) || f in held) :: folders[f];
      return true;
    }
  }

  /** What comes of the helper a quit request was written for, and of any that starts meanwhile. */
  lemma AskedWhileWaiting(s: State, during: seq<Action>)
    requires Inv(s) && ByOthers(during)
    ensures var was, now := s.disk, Run(Step(s, AskQuit), during).disk;
            now.helper.Some? ==>
              if now.helper.value.started < was.time then
                && was.helper.Some? && now.helper.value.Is(was.helper.value)
                && AskedStill(was, now, Some(was.time), was.helper.value.Due())
              else now.helper.value.Due().None?
  {
    hide Step, Inv, Run, AskedStill;
    var asked := Step(s, AskQuit);
    AskingIs(s);
    StepKeepsInv(s, AskQuit);
    SameStartSameHelper(asked, during);
    NewHelperIsNotAsked(asked, during);
    if asked.disk.helper.Some? {
      RequestStandsUntilTaken(asked, during);
      AskedOfTheSame(asked.disk, s.disk, Run(asked, during).disk);
    }
  }

  lemma AskedOfTheSame(asked: Disk, was: Disk, now: Disk)
    requires asked.helper == was.helper && was.helper.Some?
    requires AskedStill(asked, now, asked.quit, asked.helper.value.Due())
    ensures AskedStill(was, now, asked.quit, was.helper.value.Due())
  {
  }

  lemma {:induction false} LaunchersShow(d: Disk, moves: seq<Move>)
    requires d.helper.Some? && forall m | m in moves :: m == LauncherRuns
    ensures MovedAll(d, moves) == d.(show := d.show || moves != [], time := d.time + |moves|)
    decreases |moves|
  {
    if moves != [] {
      assert moves[0] in moves;
      assert forall m | m in moves[1..] :: m in moves;
      LaunchersShow(Launched(d).(time := d.time + 1), moves[1..]);
    }
  }

  /** A request written, what happens meanwhile, and its withdrawal, as one run. */
  lemma AskedAndWithdrawn(was: Disk, during: seq<Action>, d: Disk)
    requires Run(State(was.(quit := Some(was.time), time := was.time + 1), Idle), during) == State(d, Idle)
    ensures Run(State(was, Idle), [AskQuit] + during + [Withdraw]) == State(d.(quit := None, time := d.time + 1), Idle)
    ensures Run(Step(State(was, Idle), AskQuit), during) == State(d, Idle)
  {
    var s := State(was, Idle);
    assert Step(s, AskQuit) == State(was.(quit := Some(was.time), time := was.time + 1), Idle);
    assert Step(State(d, Idle), Withdraw) == State(d.(quit := None, time := d.time + 1), Idle);
    hide Step;
    RunParts(s, [AskQuit], during);
    assert [AskQuit][1..] == [] && Run(s, [AskQuit]) == Run(Step(s, AskQuit), []);
    RunThen(s, [AskQuit] + during, Withdraw);
  }

  /** What a helper that is shown is ending for, with the request withdrawn. */
  lemma WhatBecame(was: Disk, d: Disk)
    requires was.helper.Some? && d.helper.Some? && d.helper.value.started < was.time ==>
               d.helper.value.Is(was.helper.value) && AskedStill(was, d, Some(was.time), was.helper.value.Due())
    ensures was.helper.Some? && d.helper.Some? && d.helper.value.started < was.time ==>
              && d.helper.value.Due() in {was.helper.value.Due(), Some(was.time)}
              && (d.quit.None? && was.helper.value.seen.None? ==> d.helper.value.Due() == Some(was.time))
  {
  }

  lemma AskingIs(s: State)
    requires Inv(s)
    ensures Step(s, AskQuit).disk == s.disk.(quit := Some(s.disk.time), time := s.disk.time + 1)
    ensures s.disk.helper.Some? ==> s.disk.helper.value.started < s.disk.time
  {
  }

  /** However far an installer has got, the actions lead from the one folder to the other. */
  ghost predicate RunsInto(was: Disk, trace: seq<Action>, now: Disk) {
    forall i :: Run(State(was, i), trace) == State(now, i)
  }

  lemma RunsNowhere(d: Disk, others: nat -> seq<Move>)
    ensures RunsInto(d, [], d) && AfterRounds(d, others, 0) == d
  {
  }

  lemma RunsForAll(was: Disk, trace: seq<Action>, now: Disk)
    requires RunsInto(was, trace, now)
    ensures forall i :: Run(State(was, i), trace) == State(now, i)
  {
  }

  lemma RunsSafely(was: Disk, trace: seq<Action>, now: Disk)
    requires RunsInto(was, trace, now) && Safe(was)
    ensures Safe(now)
  {
    hide Safe, Run;
    RunKeepsInv(State(was, Idle), trace);
    assert Run(State(was, Idle), trace) == State(now, Idle);
  }

  lemma OneMoreRound(was: Disk, trace: seq<Action>, now: Disk, others: nat -> seq<Move>, n: nat)
    requires RunsInto(was, trace, now) && now == AfterRounds(was, others, n) && ByOthers(trace)
    ensures var d := MovedAll(now, others(n));
            && RunsInto(was, trace + Others(others(n)), d) && d == AfterRounds(was, others, n + 1)
            && (d.folders, d.current, d.previous, d.builds) == (now.folders, now.current, now.previous, now.builds)
            && d.time >= now.time && ByOthers(trace + Others(others(n)))
  {
    hide Act, MovedAll, Others, Run;
    AllByOthers(others(n));
    OthersRun(State(now, Idle), others(n));
    forall i
      ensures Run(State(was, i), trace + Others(others(n))) == State(MovedAll(now, others(n)), i)
    {
      RunParts(State(was, i), trace, Others(others(n)));
      OthersRun(State(now, i), others(n));
      assert Run(State(was, i), trace) == State(now, i);
    }
  }

  lemma LaunchedRuns(was: Disk, trace: seq<Action>, now: Disk)
    requires RunsInto(was, trace, now) && ByOthers(trace)
    ensures RunsInto(was, trace + [Other(LauncherRuns)], Launched(now).(time := now.time + 1))
    ensures ByOthers(trace + [Other(LauncherRuns)])
  {
    hide Act, Run;
    LaunchIs(now);
    forall i
      ensures Run(State(was, i), trace + [Other(LauncherRuns)]) == State(Launched(now).(time := now.time + 1), i)
    {
      RunThen(State(was, i), trace, Other(LauncherRuns));
      assert Run(State(was, i), trace) == State(now, i);
    }
  }

  /** The folder once others have had `n` rounds. */
  function AfterRounds(d: Disk, others: nat -> seq<Move>, n: nat): Disk {
    if n == 0 then d else MovedAll(AfterRounds(d, others, n - 1), others(n - 1))
  }

  lemma NotAsked(trace: seq<Action>)
    requires ByOthers(trace)
    ensures AskQuit !in trace
  {
  }

  lemma AllByOthers(moves: seq<Move>)
    ensures ByOthers(Others(moves))
  {
  }

  lemma LaunchIs(d: Disk)
    ensures forall i: Installer ::
              Step(State(d, i), Other(LauncherRuns)) == State(Launched(d).(time := d.time + 1), i)
  {
  }

  lemma RunNothing(s: State)
    ensures Run(s, []) == s
  {
  }

  lemma OthersOnly(moves: seq<Move>)
    ensures Killed !in Others(moves)
  {
  }

  lemma FinishIs(s: State)
    requires s.installer.Tidying?
    ensures Step(s, Finish) == State(s.disk.(time := s.disk.time + 1), Idle)
  {
  }

  /** A trace, lengthened by what others did. */
  lemma Extend(s0: State, before: State, trace: seq<Action>, moves: seq<Move>) returns (longer: seq<Action>)
    requires Run(s0, trace) == before
    ensures longer == trace + Others(moves)
    ensures Run(s0, longer) == before.(disk := MovedAll(before.disk, moves))
    ensures var d := MovedAll(before.disk, moves);
            (d.folders, d.current, d.previous, d.builds) ==
            (before.disk.folders, before.disk.current, before.disk.previous, before.disk.builds)
  {
    longer := trace + Others(moves);
    RunParts(s0, trace, Others(moves));
    OthersRun(before, moves);
  }
}
