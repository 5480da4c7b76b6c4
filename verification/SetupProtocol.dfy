/**
 The helper's folder as the installer, the launcher and a running helper share it: the value of the
 folder, one action for each step any of them takes, and what every interleaving of actions keeps.

 A folder under `versions` is a version's own or its `.partial`; each holds one build, told apart by
 number, so that "replaced under a running helper" can be said. A step that is not enabled changes
 nothing but the time.
 */
module SetupProtocol {
  import opened Wrappers

  datatype Folder = Final(version: string) | Partial(version: string)

  /** A request a helper has seen: to end, written at that time, or to come forward. */
  datatype Request = ToQuit(at: nat) | ToShow

  /** A helper process holding the lock: the version and build it runs from, when it started, the request
      it has seen and not yet taken away, and when the quit request it took, if any, had been written. */
  datatype Helper = Helper(version: string, build: nat, started: nat, seen: Option<Request>, quitting: Option<nat>) {
    /** The quit request it is ending for. */
    function Due(): Option<nat> {
      if seen.Some? && seen.value.ToQuit? then Some(seen.value.at) else quitting
    }

    predicate Is(other: Helper) {
      (version, build, started) == (other.version, other.build, other.started)
    }
  }

  datatype Disk = Disk(
    folders: map<Folder, nat>,
    current: Option<string>,
    previous: Option<string>,
    helper: Option<Helper>,
    quit: Option<nat>,
    show: bool,
    builds: nat,
    time: nat)

  /** How far the one installer has got. `running` is its answer, taken once before building, to
      whether a helper was running. */
  datatype Installer =
    | Idle
    | Building(version: string, running: bool, done: nat)
    | Placed(version: string, running: bool)
    | Tidying(version: string, running: bool)

  datatype State = State(disk: Disk, installer: Installer)

  /** Commands a build runs: the venv, the packages, the self-test. */
  const COMMANDS: nat := 3

  datatype Move = LauncherRuns | HelperEnds | HelperLooks | HelperTakes

  datatype Action =
    | Other(move: Move)
    | Begin(version: string)
    | Build(ok: bool)
    | Place
    | Record
    | Tidy(folder: Folder)
    | Finish
    | Killed
    | AskQuit
    | Withdraw

  // ---- the launcher and the helper ----

  predicate CanStart(d: Disk) {
    d.helper.None? && d.current.Some? && Final(d.current.value) in d.folders
  }

  /** The launcher: with the lock free, a left-over quit request goes and the current version
      starts; otherwise the running helper is asked to come forward. */
  function Launched(d: Disk): Disk {
    if d.helper.Some? then d.(show := true)
    else if !CanStart(d) then d.(quit := None)
    else
      var build := d.folders[Final(d.current.value)];
      d.(quit := None, helper := Some(Helper(d.current.value, build, d.time, None, None)))
  }

  /** A helper sees what it is asked; ending wins. */
  function Looked(d: Disk): Disk {
    if d.helper.None? || d.helper.value.seen.Some? || (d.quit.None? && !d.show) then d
    else d.(helper := Some(d.helper.value.(seen := Some(if d.quit.Some? then ToQuit(d.quit.value) else ToShow))))
  }

  /** And then takes whatever request stands away. */
  function Taken(d: Disk): Disk {
    if d.helper.None? || d.helper.value.seen.None? then d
    else d.(quit := None, show := false, helper := Some(d.helper.value.(seen := None, quitting := d.helper.value.Due())))
  }

  function Moved(d: Disk, m: Move): Disk {
    match m
    case LauncherRuns => Launched(d)
    case HelperEnds => d.(helper := None)
    case HelperLooks => Looked(d)
    case HelperTakes => Taken(d)
  }

  // ---- the installer ----

  function Recorded(d: Disk, version: string): Disk {
    var previous := if d.current.Some? && d.current != Some(version) then d.current else d.previous;
    d.(current := Some(version), previous := previous)
  }

  predicate Keeps(d: Disk, f: Folder) {
    f.Final? && (Some(f.version) == d.current || Some(f.version) == d.previous)
  }

  function Act(s: State, a: Action): State {
    var d := s.disk;
    match (a, s.installer)
    case (Other(m), _) => s.(disk := Moved(d, m))
    case (Begin(v), Idle) =>
      if d.helper.Some? && Final(v) in d.folders then s
      else State(d.(folders := d.folders - {Partial(v)}), Building(v, d.helper.Some?, 0))
    case (Build(ok), Building(v, running, done)) =>
      if done >= COMMANDS then s
      else if !ok then State(d.(folders := d.folders - {Partial(v)}), Idle)
      else if done == 0 then
        State(d.(folders := d.folders[Partial(v) := d.builds], builds := d.builds + 1), Building(v, running, 1))
      else State(d, Building(v, running, done + 1))
    case (Place, Building(v, running, done)) =>
      if done < COMMANDS || Partial(v) !in d.folders then s
      else if Final(v) in d.folders && d.helper.Some? then
        State(d.(folders := d.folders - {Partial(v)}), Idle)
      else
        var build := d.folders[Partial(v)];
        State(d.(folders := (d.folders - {Partial(v)})[Final(v) := build]), Placed(v, running))
    case (Record, Placed(v, running)) => State(Recorded(d, v), Tidying(v, running))
    case (Tidy(f), Tidying(v, running)) =>
      if running || Keeps(d, f) then s else s.(disk := d.(folders := d.folders - {f}))
    case (Finish, Tidying(_, _)) => s.(installer := Idle)
    case (Killed, _) => s.(installer := Idle)
    case (AskQuit, _) => s.(disk := d.(quit := Some(d.time)))
    case (Withdraw, _) => s.(disk := d.(quit := None))
    case _ => s
  }

  function Step(s: State, a: Action): State {
    var next := Act(s, a);
    next.(disk := next.disk.(time := s.disk.time + 1))
  }

  function Run(s: State, actions: seq<Action>): State
    decreases |actions|
  {
    if actions == [] then s else Run(Step(s, actions[0]), actions[1..])
  }

  // ---- what every reachable state keeps ----

  /** `current` and `previous`, when set, differ and name folders on disk. */
  predicate StateNamesFolders(d: Disk) {
    && (d.current.Some? ==> Final(d.current.value) in d.folders)
    && (d.previous.Some? ==> d.current.Some? && Final(d.previous.value) in d.folders && d.previous != d.current)
  }

  /** The build a running helper started from is still in its folder. */
  predicate HelperHasItsFolder(d: Disk) {
    d.helper.Some? ==>
      var h := d.helper.value; Final(h.version) in d.folders && d.folders[Final(h.version)] == h.build
  }

  /** A quit request a running helper can take, or took, was written after it started. */
  predicate QuitIsForThisHelper(d: Disk) {
    d.helper.Some? ==>
      var h := d.helper.value;
      && h.started < d.time
      && (d.quit.Some? ==> h.started < d.quit.value)
      && (h.quitting.Some? ==> h.started < h.quitting.value)
      && (h.Due().Some? ==> h.started < h.Due().value)
  }

  predicate Safe(d: Disk) {
    && StateNamesFolders(d) && HelperHasItsFolder(d) && QuitIsForThisHelper(d)
    && (forall f | f in d.folders :: d.folders[f] < d.builds)
  }

  /** Why the installer's old answer is good enough: with `running` true nothing of its version was
      there to replace, and it will not tidy; with `running` false, a helper seen now started since
      and so runs what `current` named then. */
  predicate InstallerIsSafe(s: State) {
    var d := s.disk;
    var since := d.helper.Some? ==> Some(d.helper.value.version) == d.current;
    match s.installer
    case Idle => true
    case Building(v, running, done) =>
      && (if running then Final(v) !in d.folders else since)
      && (0 < done ==> Partial(v) in d.folders)
    case Placed(v, running) => Final(v) in d.folders && (!running ==> since)
    case Tidying(v, running) =>
      && d.current == Some(v)
      && (!running ==> d.helper.Some? ==> Keeps(d, Final(d.helper.value.version)))
  }

  predicate Inv(s: State) {
    Safe(s.disk) && InstallerIsSafe(s)
  }

  lemma LaunchKeepsInv(s: State)
    requires Inv(s)
    ensures Inv(Step(s, Other(LauncherRuns)))
  {
  }

  lemma LookKeepsInv(s: State)
    requires Inv(s)
    ensures Inv(Step(s, Other(HelperLooks)))
  {
  }

  lemma TakeKeepsInv(s: State)
    requires Inv(s)
    ensures Inv(Step(s, Other(HelperTakes)))
  {
  }

  lemma EndKeepsInv(s: State)
    requires Inv(s)
    ensures Inv(Step(s, Other(HelperEnds)))
  {
  }

  lemma BeginKeepsInv(s: State, version: string)
    requires Inv(s)
    ensures Inv(Step(s, Begin(version)))
  {
  }

  lemma BuildKeepsInv(s: State, ok: bool)
    requires Inv(s)
    ensures Inv(Step(s, Build(ok)))
  {
  }

  lemma PlaceKeepsInv(s: State)
    requires Inv(s)
    ensures Inv(Step(s, Place))
  {
  }

  lemma RecordKeepsInv(s: State)
    requires Inv(s)
    ensures Inv(Step(s, Record))
  {
  }

  lemma TidyKeepsInv(s: State, folder: Folder)
    requires Inv(s)
    ensures Inv(Step(s, Tidy(folder)))
  {
  }

  lemma OtherwiseKeepsInv(s: State, a: Action)
    requires Inv(s) && a in {Finish, Killed, AskQuit, Withdraw}
    ensures Inv(Step(s, a))
  {
  }

  lemma StepKeepsInv(s: State, a: Action)
    requires Inv(s)
    ensures Inv(Step(s, a))
  {
    hide Inv, Step;
    match a {
      case Other(LauncherRuns) => LaunchKeepsInv(s);
      case Other(HelperEnds) => EndKeepsInv(s);
      case Other(HelperLooks) => LookKeepsInv(s);
      case Other(HelperTakes) => TakeKeepsInv(s);
      case Begin(version) => BeginKeepsInv(s, version);
      case Build(ok) => BuildKeepsInv(s, ok);
      case Place => PlaceKeepsInv(s);
      case Record => RecordKeepsInv(s);
      case Tidy(folder) => TidyKeepsInv(s, folder);
      case _ => OtherwiseKeepsInv(s, a);
    }
  }

  lemma {:induction false} RunKeepsInv(s: State, actions: seq<Action>)
    requires Inv(s)
    ensures Inv(Run(s, actions))
    decreases |actions|
  {
    if actions != [] {
      StepKeepsInv(s, actions[0]);
      RunKeepsInv(Step(s, actions[0]), actions[1..]);
    }
  }

  /** Nothing installed yet. */
  const EMPTY: State := State(Disk(map[], None, None, None, None, false, 0, 0), Idle)

  /** In every reachable state of installs, starts, ends and replacements, whatever fails and
      whoever comes in between. */
  lemma ReachableStatesAreSafe(actions: seq<Action>)
    ensures Safe(Run(EMPTY, actions).disk)
  {
    RunKeepsInv(EMPTY, actions);
  }

  /** No step of anyone removes or replaces the folder a helper runs from: as long as one process
      holds the lock its folder holds the same build. */
  lemma HelperKeepsItsFolder(actions: seq<Action>, more: seq<Action>)
    ensures var was, now := Run(EMPTY, actions).disk, Run(EMPTY, actions + more).disk;
            was.helper.Some? && now.helper.Some? && was.helper.value.started == now.helper.value.started
            ==> var f := Final(was.helper.value.version);
                f in was.folders && f in now.folders && was.folders[f] == now.folders[f]
  {
    RunParts(EMPTY, actions, more);
    RunKeepsInv(EMPTY, actions);
    RunKeepsInv(Run(EMPTY, actions), more);
    SameStartSameHelper(Run(EMPTY, actions), more);
  }

  lemma {:induction false} RunParts(s: State, a: seq<Action>, b: seq<Action>)
    ensures Run(s, a + b) == Run(Run(s, a), b)
    decreases |a|
  {
    if a == [] {
      assert a + b == b;
    } else {
      assert (a + b)[1..] == a[1..] + b;
      RunParts(Step(s, a[0]), a[1..], b);
    }
  }

  /** A helper's start identifies it: one seen with an earlier helper's start runs its build. */
  lemma {:induction false} SameStartSameHelper(s: State, actions: seq<Action>)
    requires Inv(s)
    ensures var was, now := s.disk, Run(s, actions).disk;
            && was.time <= now.time
            && (now.helper.Some? && now.helper.value.started < was.time ==>
                  was.helper.Some? && now.helper.value.started == was.helper.value.started
                  && now.helper.value.version == was.helper.value.version
                  && now.helper.value.build == was.helper.value.build)
    decreases |actions|
  {
    hide Step, Inv;
    if actions != [] {
      StepKeepsInv(s, actions[0]);
      StartIsNew(s, actions[0]);
      SameStartSameHelper(Step(s, actions[0]), actions[1..]);
    }
  }

  lemma StartIsNew(s: State, a: Action)
    ensures var was, now := s.disk, Step(s, a).disk;
            && now.time == was.time + 1
            && (now.helper.Some? && now.helper.value.started < was.time ==>
                  was.helper.Some? && now.helper.value.Is(was.helper.value))
  {
  }

  // ---- a failed install ----

  function Versions(d: Disk): map<Folder, nat> {
    map f | f in d.folders && f.Final? :: d.folders[f]
  }

  lemma BuildingTouchesOnlyItsPartial(s: State, a: Action, version: string)
    requires s.installer.Building? && s.installer.version == version && a != Killed
    ensures var next := Step(s, a);
            && (next.installer.Building? ==> next.installer.version == version)
            && (!next.installer.Placed? ==>
                  && Versions(next.disk) == Versions(s.disk)
                  && (next.disk.current, next.disk.previous) == (s.disk.current, s.disk.previous)
                  && (forall f | f in next.disk.folders && f.Partial? && f.version != version :: f in s.disk.folders)
                  && (!next.installer.Building? ==> next.installer == Idle && Partial(version) !in next.disk.folders))
  {
  }

  /** From the start of a build until it fails or its folder is in place, no version on disk changes
      whatever else happens, and once it has failed its `.partial` is gone. */
  lemma {:induction false} FailedBuildChangesNothing(s: State, actions: seq<Action>, version: string)
    requires s.installer.Building? && s.installer.version == version
    requires forall n | 0 <= n < |actions| :: Run(s, actions[..n]).installer.Building?
    requires Killed !in actions && !Run(s, actions).installer.Placed?
    ensures var end := Run(s, actions);
            && Versions(end.disk) == Versions(s.disk)
            && (end.disk.current, end.disk.previous) == (s.disk.current, s.disk.previous)
            && (forall f | f in end.disk.folders && f.Partial? && f.version != version :: f in s.disk.folders)
            && (end.installer.Building? ==> end.installer.version == version)
            && (!end.installer.Building? ==> end.installer == Idle && Partial(version) !in end.disk.folders)
    decreases |actions|
  {
    hide Step, Versions;
    if actions != [] {
      var next := Step(s, actions[0]);
      BuildingTouchesOnlyItsPartial(s, actions[0], version);
      if |actions| == 1 {
        assert actions[1..] == [];
      } else {
        assert actions[..1] == [actions[0]] && actions[..1][1..] == [];
        assert Run(s, actions[..1]) == next;
        forall n | 0 <= n < |actions[1..]|
          ensures Run(next, actions[1..][..n]).installer.Building?
        {
          assert actions[..n + 1][1..] == actions[1..][..n];
        }
        FailedBuildChangesNothing(next, actions[1..], version);
      }
    }
  }

  // ---- a withdrawn request ----

  predicate ByOthers(actions: seq<Action>) {
    forall a | a in actions :: a.Other?
  }

  /** While a request stands, what the helper it is for is ending for changes to that request or not at
      all; and when the request is gone it is ending for it, unless it had seen one before, and not yet
      taken that away, when this one was written. */
  lemma {:induction false} RequestStandsUntilTaken(s: State, actions: seq<Action>)
    requires Inv(s) && s.disk.helper.Some? && s.disk.quit.Some? && ByOthers(actions)
    ensures AskedStill(s.disk, Run(s, actions).disk, s.disk.quit, s.disk.helper.value.Due())
    decreases |actions|
  {
    hide Step, Inv, AskedStill;
    StartedBefore(s);
    if actions == [] {
      AskedAtFirst(s);
    } else {
      var next := Step(s, actions[0]);
      StepKeepsInv(s, actions[0]);
      StartIsNew(s, actions[0]);
      assert actions[0] in actions;
      assert ByOthers(actions[1..]) by { assert forall a | a in actions[1..] :: a in actions; }
      RequestOneStep(s, actions[0]);
      SameStartSameHelper(next, actions[1..]);
      if next.disk.helper.Some? && next.disk.helper.value.started == s.disk.helper.value.started {
        if next.disk.quit.Some? {
          RequestStandsUntilTaken(next, actions[1..]);
        } else {
          assert AskQuit !in actions[1..] by { assert forall a | a in actions[1..] :: a in actions; }
          WithdrawalComesInTime(next, actions[1..]);
        }
        AskedOn(s.disk, next.disk, Run(next, actions[1..]).disk);
      } else {
        AskedAnother(s.disk, Run(next, actions[1..]).disk);
      }
    }
  }

  /** What has come of `asked`, written for the helper of `was` that was due to end for `due` then. */
  predicate AskedStill(was: Disk, now: Disk, asked: Option<nat>, due: Option<nat>)
    requires was.helper.Some?
  {
    now.helper.Some? && now.helper.value.started == was.helper.value.started ==>
      && now.helper.value.Due() in {due, asked}
      && now.quit in {None, asked}
      && (now.quit.None? && was.helper.value.seen.None? ==> now.helper.value.Due() == asked)
  }

  lemma AskedAtFirst(s: State)
    requires Inv(s) && s.disk.helper.Some? && s.disk.quit.Some?
    ensures AskedStill(s.disk, Run(s, []).disk, s.disk.quit, s.disk.helper.value.Due())
  {
  }

  lemma AskedAnother(was: Disk, now: Disk)
    requires was.helper.Some?
    requires now.helper.Some? ==> now.helper.value.started != was.helper.value.started
    ensures AskedStill(was, now, was.quit, was.helper.value.Due())
  {
  }

  lemma AskedOn(was: Disk, next: Disk, now: Disk)
    requires was.helper.Some? && was.quit.Some? && next.helper.Some?
    requires next.helper.value.started == was.helper.value.started
    requires next.helper.value.Due() in {was.helper.value.Due(), was.quit}
    requires next.quit.Some? ==>
               && next.quit == was.quit
               && (was.helper.value.seen.None? ==> next.helper.value.seen.None? || next.helper.value.Due() == was.quit)
               && AskedStill(next, now, next.quit, next.helper.value.Due())
    requires next.quit.None? ==>
               && (was.helper.value.seen.None? ==> next.helper.value.Due() == was.quit)
               && now.quit.None?
               && (now.helper.Some? && now.helper.value.started == was.helper.value.started ==>
                     now.helper.value.Due() == next.helper.value.Due())
    ensures AskedStill(was, now, was.quit, was.helper.value.Due())
  {
  }

  lemma RequestOneStep(s: State, a: Action)
    requires Inv(s) && s.disk.helper.Some? && s.disk.quit.Some? && a.Other?
    ensures var was, next := s.disk, Step(s, a).disk;
            next.helper.Some? && next.helper.value.started == was.helper.value.started ==>
              && next.helper.value.Due() in {was.helper.value.Due(), was.quit}
              && (next.quit.Some? ==>
                    && next.quit == was.quit
                    && (was.helper.value.seen.None? ==> next.helper.value.seen.None? || next.helper.value.Due() == was.quit))
              && (next.quit.None? && was.helper.value.seen.None? ==> next.helper.value.Due() == was.quit)
  {
  }

  /** A request written between the two steps of a helper that takes one to come forward is taken away
      with it, unread. */
  lemma RequestCanBeLost(s: State)
    requires s.disk.helper.Some? && s.disk.helper.value.seen == Some(ToShow)
    ensures var d := Step(Step(s, AskQuit), Other(HelperTakes)).disk;
            d.quit.None? && d.helper.Some? && d.helper.value.Due() == s.disk.helper.value.quitting
  {
  }

  /** Once a request is withdrawn, a helper that still holds the lock is ending for one if and only if it
      had seen one by then, and one that started since is not: the withdrawal spares exactly those that
      had not. */
  lemma {:induction false} WithdrawalComesInTime(s: State, actions: seq<Action>)
    requires Inv(s) && s.disk.quit.None? && AskQuit !in actions
    ensures var was, now := s.disk, Run(s, actions).disk;
            && now.quit.None?
            && (now.helper.Some? ==>
                  if now.helper.value.started < was.time then
                    && was.helper.Some? && now.helper.value.Is(was.helper.value)
                    && now.helper.value.Due() == was.helper.value.Due()
                  else now.helper.value.Due().None?)
    decreases |actions|
  {
    hide Step, Inv;
    StartedBefore(s);
    if actions != [] {
      StepKeepsInv(s, actions[0]);
      UnaskedStep(s, actions[0]);
      WithdrawalComesInTime(Step(s, actions[0]), actions[1..]);
    }
  }

  lemma StartedBefore(s: State)
    requires Inv(s)
    ensures s.disk.helper.Some? ==> s.disk.helper.value.started < s.disk.time
  {
  }

  lemma UnaskedStep(s: State, a: Action)
    requires s.disk.quit.None? && a != AskQuit
    ensures var was, now := s.disk, Step(s, a).disk;
            && now.quit.None? && now.time == was.time + 1
            && (now.helper.Some? ==>
                  || (was.helper.Some? && now.helper.value.Is(was.helper.value) && now.helper.value.Due() == was.helper.value.Due())
                  || (now.helper.value.started == was.time && now.helper.value.Due().None?))
  {
  }

  /** A helper that started while a request stood is not ending for it: the launcher put it away first. */
  lemma {:induction false} NewHelperIsNotAsked(s: State, actions: seq<Action>)
    requires Inv(s) && ByOthers(actions)
    ensures var was, now := s.disk, Run(s, actions).disk;
            now.helper.Some? && now.helper.value.started >= was.time ==> now.helper.value.Due().None?
    decreases |actions|
  {
    hide Step, Inv;
    StartedBefore(s);
    if actions != [] {
      var next := Step(s, actions[0]);
      StepKeepsInv(s, actions[0]);
      StartIsNew(s, actions[0]);
      assert actions[0] in actions;
      NewIsUnasked(s, actions[0]);
      SameStartSameHelper(next, actions[1..]);
      if next.disk.helper.Some? && next.disk.helper.value.started >= s.disk.time {
        assert forall a | a in actions[1..] :: a in actions;
        WithdrawalComesInTime(next, actions[1..]);
      } else {
        NewHelperIsNotAsked(next, actions[1..]);
      }
    }
  }

  lemma NewIsUnasked(s: State, a: Action)
    requires s.disk.helper.Some? ==> s.disk.helper.value.started < s.disk.time
    ensures var was, now := s.disk, Step(s, a).disk;
            now.helper.Some? && now.helper.value.started >= was.time ==>
              now.helper.value.started == was.time && now.helper.value.Due().None? && now.quit.None?
  {
  }

  /** An install, a start, and a quit request that the helper sees before it is withdrawn. */
  function SeenThenWithdrawn(version: string): seq<Action> {
    [Begin(version), Build(true), Build(true), Build(true), Place, Record, Finish,
     Other(LauncherRuns), AskQuit, Other(HelperLooks), Withdraw, Other(HelperTakes)]
  }

  /** The request stood until it was withdrawn, and the helper is ending all the same. */
  lemma SeenRequestIsNotWithdrawn(version: string)
    ensures var d := Run(EMPTY, SeenThenWithdrawn(version)).disk;
            d.quit.None? && d.helper.Some? && d.helper.value.version == version && d.helper.value.quitting.Some?
  {
    var a := SeenThenWithdrawn(version);
    var s3 := Step(Step(Step(EMPTY, a[0]), a[1]), a[2]);
    var s6 := Step(Step(Step(s3, a[3]), a[4]), a[5]);
    assert Partial(version) in s3.disk.folders && s3.installer.Building?;
    assert s6.disk.current == Some(version) && Final(version) in s6.disk.folders && s6.installer.Tidying?;
    assert s6.disk.helper.None?;
    StartedThenSeen(s6, version);
    RunTwelve(a);
  }

  lemma StartedThenSeen(s: State, version: string)
    requires s.installer.Tidying? && s.disk.helper.None?
    requires s.disk.current == Some(version) && Final(version) in s.disk.folders
    ensures var s9 := Step(Step(Step(s, Finish), Other(LauncherRuns)), AskQuit);
            var d := Step(Step(Step(s9, Other(HelperLooks)), Withdraw), Other(HelperTakes)).disk;
            d.quit.None? && d.helper.Some? && d.helper.value.version == version && d.helper.value.quitting.Some?
  {
  }

  lemma RunTwelve(a: seq<Action>)
    requires |a| == 12
    ensures var s3 := Step(Step(Step(EMPTY, a[0]), a[1]), a[2]);
            var s6 := Step(Step(Step(s3, a[3]), a[4]), a[5]);
            var s9 := Step(Step(Step(s6, a[6]), a[7]), a[8]);
            Run(EMPTY, a) == Step(Step(Step(s9, a[9]), a[10]), a[11])
  {
    hide Step;
    var s3 := Step(Step(Step(EMPTY, a[0]), a[1]), a[2]);
    var s6 := Step(Step(Step(s3, a[3]), a[4]), a[5]);
    var s9 := Step(Step(Step(s6, a[6]), a[7]), a[8]);
    RunThree(EMPTY, a);
    RunThree(s3, a[3..]);
    RunThree(s6, a[6..]);
    RunThree(s9, a[9..]);
    assert a[3..][3..] == a[6..] && a[6..][3..] == a[9..] && a[9..][3..] == [];
  }

  lemma RunThree(s: State, a: seq<Action>)
    requires |a| >= 3
    ensures Run(s, a) == Run(Step(Step(Step(s, a[0]), a[1]), a[2]), a[3..])
  {
    hide Step;
    assert a[1..][1..] == a[2..] && a[2..][1..] == a[3..];
    var s1 := Step(s, a[0]);
    var s2 := Step(s1, a[1]);
    assert Run(s, a) == Run(s1, a[1..]);
    assert Run(s1, a[1..]) == Run(s2, a[2..]);
    assert Run(s2, a[2..]) == Run(Step(s2, a[2]), a[3..]);
  }

  /** A helper that has not seen the request when it is withdrawn is not ended by it later. */
  lemma {:induction false} WithdrawnRequestEndsNobody(s: State, actions: seq<Action>)
    requires s.disk.quit.None? && (s.disk.helper.Some? ==> s.disk.helper.value.Due().None?)
    requires AskQuit !in actions
    ensures var now := Run(s, actions).disk;
            now.quit.None? && (now.helper.Some? ==> now.helper.value.Due().None?)
    decreases |actions|
  {
    if actions != [] {
      WithdrawnRequestEndsNobody(Step(s, actions[0]), actions[1..]);
    }
  }

  // ---- runs, taken apart ----

  lemma RunThen(s: State, actions: seq<Action>, a: Action)
    ensures Run(s, actions + [a]) == Step(Run(s, actions), a)
  {
    RunParts(s, actions, [a]);
    assert [a][1..] == [];
    assert Run(Step(Run(s, actions), a), []) == Step(Run(s, actions), a);
  }

  function Others(moves: seq<Move>): seq<Action> {
    seq(|moves|, i requires 0 <= i < |moves| => Other(moves[i]))
  }

  function MovedAll(d: Disk, moves: seq<Move>): Disk
    decreases |moves|
  {
    if moves == [] then d else MovedAll(Moved(d, moves[0]).(time := d.time + 1), moves[1..])
  }

  /** What the launcher and the helpers do between two steps of the installer leaves the folders, and
      what the state names, alone. */
  lemma {:induction false} OthersRun(s: State, moves: seq<Move>)
    ensures Run(s, Others(moves)) == s.(disk := MovedAll(s.disk, moves))
    ensures var d := MovedAll(s.disk, moves);
            && (d.folders, d.current, d.previous, d.builds) == (s.disk.folders, s.disk.current, s.disk.previous, s.disk.builds)
            && d.time == s.disk.time + |moves|
    decreases |moves|
  {
    if moves != [] {
      assert Others(moves)[0] == Other(moves[0]) && Others(moves)[1..] == Others(moves[1..]);
      OthersRun(Step(s, Other(moves[0])), moves[1..]);
    }
  }

  // ---- the way from 0.1.0 ----

  /** A version started as the `pending` one takes over: it becomes current, and every folder goes
      but its own and the version before's (a folder in `held` cannot go). */
  function TakenOver(d: Disk, version: string, held: set<Folder>): Disk {
    if d.current == Some(version) then d
    else
      var taken := d.(current := Some(version), previous := d.current);
      taken.(folders := map f | f in d.folders && (Keeps(taken, f) || f in held) :: d.folders[f])
  }

  lemma TakingOverIsSafe(d: Disk, version: string, held: set<Folder>)
    requires Safe(d) && d.helper.Some? && d.helper.value.version == version
    ensures var t := TakenOver(d, version, held);
            && Safe(t) && t.current == Some(version)
            && t.previous == (if d.current == Some(version) then d.previous else d.current)
            && (d.current != Some(version) ==>
                  forall f | f in t.folders - held :: f == Final(version) || (t.previous.Some? && f == Final(t.previous.value)))
  {
  }
}
