/**
 The helper's run loop: it owns one Chrome and the polls over it, and takes the window's buttons as
 commands. Whether Chrome starts, what a poll finds, whether the person closed the window, and what
 fails on the way are the `World`'s to say.

 `log` is what happened, in order. What the run must keep is said of the log alone; the controller's
 fields are tied to it by `Valid`.
 */
module Controller {
  import opened Wrappers

  datatype Status =
    | Starting | Connected | Paused | NeedsLogin | UpdateRequired | Unreachable | Error | LoginExpired | NoChrome

  /** What the worker's own polls come to; a paused one does not poll. */
  type WorkerStatus = s: Status | s in {Connected, NeedsLogin, UpdateRequired, Unreachable, Error} witness Connected

  datatype Command = Quit | ResetLogin | Login | Pause | Resume

  datatype Event =
    | Opened(id: nat)
    | Closed(id: nat)
    | Polled(status: Status)
    | AutoLogin(ok: bool)
    | AskedLogin(ok: bool)
    | FreshProfile
    | Showed(status: Status)

  /** What call number n comes to: Chrome starts; the worker over it can be made, and the updater, if there
      is to be one; a poll's status, None when it raises; the window was closed; the login page opens; the
      profile could be moved. */
  datatype World = World(
    starts: nat -> bool,
    workers: nat -> bool,
    keepsCurrent: bool,
    updaters: nat -> bool,
    polls: nat -> Option<WorkerStatus>,
    gone: nat -> bool,
    logins: nat -> bool,
    resets: nat -> bool)

  const CHROME_TRIES: nat := 3

  // ---- what a log says ----

  /** The Chrome that is open. */
  function OpenNow(log: seq<Event>): Option<nat> {
    if log == [] then None
    else match log[|log| - 1]
      case Opened(id) => Some(id)
      case Closed(_) => None
      case _ => OpenNow(log[..|log| - 1])
  }

  /** No Chrome is opened while another is open, and only the open one is closed. */
  predicate OneAtATime(log: seq<Event>) {
    log == [] ||
    (var before := log[..|log| - 1];
     && OneAtATime(before)
     && match log[|log| - 1]
        case Opened(_) => OpenNow(before) == None
        case Closed(id) => OpenNow(before) == Some(id)
        case _ => true)
  }

  function LastPoll(log: seq<Event>): Option<Status> {
    if log == [] then None
    else if log[|log| - 1].Polled? then Some(log[|log| - 1].status)
    else LastPoll(log[..|log| - 1])
  }

  /** Since the polls last turned to `NeedsLogin` the login page has been opened for it. */
  predicate LoginOpened(log: seq<Event>) {
    log != [] &&
    (var before := log[..|log| - 1];
     match log[|log| - 1]
     case Polled(status) => status == NeedsLogin && LoginOpened(before)
     case AutoLogin(ok) => ok || LoginOpened(before)
     case _ => LoginOpened(before))
  }

  /** A poll that finds a login missing and not yet asked for is followed at once by the attempt to
      open it, and there is no other such attempt. */
  predicate LoginsFollowPolls(log: seq<Event>) {
    log == [] ||
    (var before, e := log[..|log| - 1], log[|log| - 1];
     && LoginsFollowPolls(before)
     && (e.AutoLogin? <==> LoginDue(before)))
  }

  predicate LoginDue(log: seq<Event>) {
    log != [] && log[|log| - 1] == Polled(NeedsLogin) && !LoginOpened(log)
  }

  /** A poll was connected since the start or the last fresh profile. */
  predicate SignedIn(log: seq<Event>) {
    log != [] &&
    (match log[|log| - 1]
     case Polled(status) => status == Connected || SignedIn(log[..|log| - 1])
     case FreshProfile => false
     case _ => SignedIn(log[..|log| - 1]))
  }

  /** A missing login is shown as an expired one exactly after a sign-in, and whatever else is shown, but
      that Chrome is not there or something failed, is what the last poll found. */
  predicate ShowsExpiry(log: seq<Event>) {
    log == [] ||
    (var before, e := log[..|log| - 1], log[|log| - 1];
     && ShowsExpiry(before)
     && (e == Showed(LoginExpired) ==> SignedIn(before) && LastPoll(before) == Some(NeedsLogin))
     && (e == Showed(NeedsLogin) ==> !SignedIn(before))
     && (e.Showed? && e.status !in {NoChrome, Error, LoginExpired} ==> LastPoll(before) == Some(e.status)))
  }

  predicate GoodLog(log: seq<Event>) {
    OneAtATime(log) && LoginsFollowPolls(log) && ShowsExpiry(log)
  }

  datatype StepEnd = Continue | End | Raised

  /** What the poll of a step depends on. */
  datatype Snapshot = Snapshot(log: seq<Event>, chrome: Option<nat>, worker: bool, updater: bool, calls: nat, paused: bool)

  /** What the window sends: the commands there before a step, and those sent while each command is done. */
  datatype Round = Round(waiting: seq<Command>, meanwhile: seq<seq<Command>>)

  datatype RunEnd = Running | Quitted | Died

  function Together(batches: seq<seq<Command>>): seq<Command> {
    if batches == [] then [] else Together(batches[..|batches| - 1]) + batches[|batches| - 1]
  }

  class Controller {
    const world: World
    var commands: seq<Command>
    var chrome: Option<nat>
    var worker: bool
    /** One for the helper's life. */
    var updater: bool
    var paused: bool
    var askedLogin: bool
    var signedIn: bool
    var snapshot: Status
    var calls: nat
    ghost var log: seq<Event>
    /** The commands done. */
    ghost var handled: seq<Command>
    /** Those sent. */
    ghost var sent: seq<Command>

    /** Every command sent was done, or waits, in order. */
    ghost predicate InOrder()
      reads this
    {
      sent == handled + commands
    }

    ghost predicate Valid()
      reads this
    {
      && GoodLog(log) && !LoginDue(log)
      && OpenNow(log) == chrome && (worker ==> chrome.Some?)
      && askedLogin == LoginOpened(log) && signedIn == SignedIn(log)
    }

    constructor (world: World)
      ensures Valid() && this.world == world && log == [] && commands == [] && !updater && !paused && snapshot == Starting && InOrder()
    {
      this.world := world;
      commands, chrome, worker, updater, paused, askedLogin, signedIn := [], None, false, false, false, false, false;
      snapshot, calls, log, handled, sent := Starting, 0, [], [], [];
    }

    method Send(command: Command)
      modifies this`commands, this`sent
      ensures commands == old(commands) + [command] && sent == old(sent) + [command]
    {
      commands, sent := commands + [command], sent + [command];
    }

    method SendAll(batch: seq<Command>)
      modifies this`commands, this`sent
      ensures commands == old(commands) + batch && sent == old(sent) + batch
    {
      for i := 0 to |batch|
        invariant commands == old(commands) + batch[..i] && sent == old(sent) + batch[..i]
      {
        Send(batch[i]);
      }
    }

    ghost method Happens(e: Event)
      modifies this`log
      ensures log == old(log) + [e]
      ensures OpenNow(log) == if e.Opened? then Some(e.id) else if e.Closed? then None else OpenNow(old(log))
      ensures LastPoll(log) == if e.Polled? then Some(e.status) else LastPoll(old(log))
      ensures LoginOpened(log) <==> (e.Polled? ==> e.status == NeedsLogin) && (LoginOpened(old(log)) || e == AutoLogin(true))
      ensures LoginDue(log) <==> e == Polled(NeedsLogin) && !LoginOpened(old(log))
      ensures SignedIn(log) <==> e == Polled(Connected) || (SignedIn(old(log)) && e != FreshProfile)
      ensures GoodLog(log) <==>
              (&& GoodLog(old(log))
               && (e.Opened? ==> OpenNow(old(log)) == None) && (e.Closed? ==> OpenNow(old(log)) == Some(e.id))
               && (e.AutoLogin? <==> LoginDue(old(log)))
               && (e == Showed(LoginExpired) ==> SignedIn(old(log)) && LastPoll(old(log)) == Some(NeedsLogin))
               && (e == Showed(NeedsLogin) ==> !SignedIn(old(log)))
               && (e.Showed? && e.status !in {NoChrome, Error, LoginExpired} ==> LastPoll(old(log)) == Some(e.status)))
    {
      log := log + [e];
      assert log[..|log| - 1] == old(log);
    }

    method Show(status: Status)
      requires Valid()
      requires status == LoginExpired ==> SignedIn(log) && LastPoll(log) == Some(NeedsLogin)
      requires status == NeedsLogin ==> !SignedIn(log)
      requires status !in {NoChrome, Error, LoginExpired} ==> LastPoll(log) == Some(status)
      modifies this`snapshot, this`log
      ensures Valid() && log == old(log) + [Showed(status)] && snapshot == status
    {
      hide OpenNow, LastPoll, LoginOpened, LoginDue, SignedIn, GoodLog;
      snapshot := status;
      Happens(Showed(status));
    }

    /** The first of `tries` starts, from call number n on, that succeeds: the Chrome it gives. */
    function FirstStart(n: nat, tries: nat): Option<nat>
      decreases tries
    {
      if tries == 0 then None else if world.starts(n) then Some(n) else FirstStart(n + 1, tries - 1)
    }

    static function Opening(chrome: Option<nat>): Event {
      if chrome.Some? then Opened(chrome.value) else Showed(NoChrome)
    }

    static function Closing(chrome: Option<nat>): seq<Event> {
      if chrome.Some? then [Closed(chrome.value)] else []
    }

    /** Whether the Chrome given comes with its worker, which is made next. */
    predicate HasWorker(chrome: Option<nat>) {
      chrome.Some? && world.workers(chrome.value + 1)
    }

    /** Whether everything over the Chrome given can be made: its worker and, without one so far, the
        updater. */
    predicate AllMade(chrome: Option<nat>, updater: bool) {
      HasWorker(chrome) && (world.keepsCurrent && !updater ==> world.updaters(chrome.value + 2))
    }

    /** The number of the call after those. */
    function AfterOpening(chrome: nat, updater: bool): nat {
      chrome + 2 + if world.keepsCurrent && !updater then 1 else 0
    }

    /** Starts Chrome, three tries, makes its worker and, once, the updater; what a previous Chrome left is
        dead. Not `ok`: Chrome stands, but the worker or the updater could not be made. */
    method Open() returns (ok: bool)
      requires GoodLog(log) && !LoginDue(log) && OpenNow(log) == None
      requires askedLogin == LoginOpened(log) && signedIn == SignedIn(log)
      modifies this`chrome, this`worker, this`updater, this`paused, this`snapshot, this`calls, this`log
      ensures Valid() && chrome == FirstStart(old(calls), 3)
      ensures worker == HasWorker(chrome) && ok == (chrome == None || AllMade(chrome, old(updater)))
      ensures worker ==> calls == AfterOpening(chrome.value, old(updater)) && !paused
      ensures updater == (old(updater) || (world.keepsCurrent && AllMade(chrome, old(updater))))
      ensures log == old(log) + [Opening(chrome)] && (chrome == None ==> snapshot == NoChrome)
    {
      hide OpenNow, LastPoll, LoginOpened, LoginDue, SignedIn, GoodLog, FirstStart;
      chrome, worker := None, false;
      StartChrome();
      if chrome == None {
        Show(NoChrome);
        return true;
      }
      calls := calls + 1;
      if !world.workers(calls - 1) {
        return false;
      }
      worker, paused := true, false;
      if world.keepsCurrent && !updater {
        calls := calls + 1;
        updater := world.updaters(calls - 1);
        return updater;
      }
      ok := true;
    }

    method StartChrome()
      requires Valid() && chrome == None && !worker
      modifies this`chrome, this`calls, this`log
      ensures Valid() && chrome == FirstStart(old(calls), 3)
      ensures log == old(log) + if chrome.Some? then [Opened(chrome.value)] else []
      ensures chrome.Some? ==> calls == chrome.value + 1
    {
      hide OpenNow, LastPoll, LoginOpened, LoginDue, SignedIn, GoodLog;
      var attempt := 1;
      while attempt <= CHROME_TRIES
        invariant Valid() && chrome == None && log == old(log) && 1 <= attempt <= CHROME_TRIES + 1
        invariant FirstStart(old(calls), CHROME_TRIES) == FirstStart(calls, CHROME_TRIES + 1 - attempt)
      {
        calls := calls + 1;
        if world.starts(calls - 1) {
          chrome := Some(calls - 1);
          Happens(Opened(calls - 1));
          break;
        }
        attempt := attempt + 1;
      }
    }

    /** Closes Chrome, whatever closing it says. */
    method Close()
      requires Valid()
      modifies this`log
      ensures GoodLog(log) && !LoginDue(log) && OpenNow(log) == None && log == old(log) + Closing(chrome)
      ensures askedLogin == LoginOpened(log) && signedIn == SignedIn(log)
    {
      hide OpenNow, LastPoll, LoginOpened, LoginDue, SignedIn, GoodLog;
      if chrome.Some? {
        Happens(Closed(chrome.value));
      }
    }

    /** The login page, as the person or the reset asks for it. */
    method OpenLogin() returns (ok: bool)
      requires Valid()
      modifies this`calls, this`log
      ensures Valid() && log == old(log) + [AskedLogin(ok)]
    {
      hide OpenNow, LastPoll, LoginOpened, LoginDue, SignedIn, GoodLog;
      ok := world.logins(calls);
      calls := calls + 1;
      Happens(AskedLogin(ok));
    }

    /** Closes Chrome, moves its profile aside, starts again and opens the login; None when starting or
        opening the login raised, Some(false) when the profile could not be moved. */
    method Reset() returns (done: Option<bool>)
      requires Valid()
      modifies this`chrome, this`worker, this`updater, this`paused, this`signedIn, this`snapshot, this`calls, this`log
      ensures Valid() && worker == HasWorker(chrome)
      ensures var restarted := old(log) + Closing(old(chrome)) + [Opening(chrome)];
              if chrome.Some? && !AllMade(chrome, old(updater)) then
                done == None && log == restarted && signedIn == old(signedIn)
              else if !world.resets(old(calls)) then
                done == Some(false) && log == restarted + [Showed(Error)] && snapshot == Error && signedIn == old(signedIn)
              else
                && !signedIn && log != [] && done == (if log[|log| - 1] == AskedLogin(false) then None else Some(true))
                && (if chrome.Some? then exists ok :: log == restarted + [FreshProfile, AskedLogin(ok)]
                    else log == restarted + [FreshProfile])
    {
      hide OpenNow, LastPoll, LoginOpened, LoginDue, SignedIn, GoodLog;
      Close();
      var moved := world.resets(calls);
      calls := calls + 1;
      var ok := Open();
      if !ok {
        return None;
      }
      if !moved {
        Show(Error);
        return Some(false);
      }
      signedIn := false;
      Happens(FreshProfile);
      if chrome.Some? && worker {
        ok := OpenLogin();
        if !ok {
          return None;
        }
      }
      done := Some(true);
    }

    method Apply(command: Command) returns (ok: bool)
      requires Valid() && command in {Login, Pause, Resume}
      modifies this`paused, this`calls, this`log
      ensures Valid()
      ensures worker && command == Login ==> log == old(log) + [AskedLogin(ok)] && paused == old(paused)
      ensures !(worker && command == Login) ==> ok && log == old(log)
      ensures command != Login ==> paused == if worker then command == Pause else old(paused)
    {
      hide OpenNow, LastPoll, LoginOpened, LoginDue, SignedIn, GoodLog;
      ok := true;
      if worker {
        if command == Login {
          ok := OpenLogin();
        } else {
          paused := command == Pause;
        }
      }
    }

    /** Does what one command asks. None: on to the next one. */
    method Do(command: Command) returns (end: Option<StepEnd>)
      requires Valid()
      modifies this`chrome, this`worker, this`updater, this`paused, this`signedIn, this`snapshot, this`calls, this`log, this`handled
      ensures handled == old(handled) + [command] && old(log) <= log
      ensures (end == Some(Raised) ==> command in {ResetLogin, Login}) && (end == Some(Continue) ==> command == ResetLogin)
      ensures end == Some(End) <==> command == Quit
      ensures end != Some(End) ==> Valid()
      // quitting leaves no Chrome open
      ensures command == Quit ==> GoodLog(log) && log == old(log) + Closing(old(chrome)) && OpenNow(log) == None
      ensures command == ResetLogin ==>
                && old(log) + Closing(old(chrome)) + [Opening(chrome)] <= log
                && worker == HasWorker(chrome)
                && (if chrome.Some? && !AllMade(chrome, old(updater)) then end == Some(Raised) && signedIn == old(signedIn)
                    else
                      && (end == Some(Continue) <==> !world.resets(old(calls)))
                      && (world.resets(old(calls)) ==> FreshProfile in log[|old(log)|..] && !signedIn))
      ensures command == Login && worker ==> log == old(log) + [AskedLogin(end == None)]
      ensures command in {Pause, Resume} ==>
                end == None && log == old(log) && paused == if worker then command == Pause else old(paused)
    {
      hide OpenNow, LastPoll, LoginOpened, LoginDue, SignedIn, GoodLog;
      handled := handled + [command];
      if command == Quit {
        Close();
        return Some(End);
      }
      if command == ResetLogin {
        ghost var k := |log| + |Closing(chrome)| + 1;
        var done := Reset();
        assert worker == HasWorker(chrome);
        assert world.resets(old(calls)) && !(chrome.Some? && !AllMade(chrome, old(updater))) ==> log[k] == FreshProfile;
        return if done == Some(true) then None else if done.None? then Some(Raised) else Some(Continue);
      }
      var ok := Apply(command);
      end := if ok then None else Some(Raised);
    }

    /** Takes the commands waiting, in order, and those the window sends meanwhile, then polls once.
        `stopped` is how the last of them ended the step, if it did; `at` what there was when they were
        done, `came` how many batches came meanwhile. */
    method Step(meanwhile: seq<seq<Command>>)
      returns (end: StepEnd, ghost stopped: Option<StepEnd>, ghost at: Snapshot, ghost came: nat)
      requires Valid()
      modifies this
      ensures !end.End? ==> Valid()
      ensures end.End? ==> GoodLog(log) && OpenNow(log) == None
      // every command taken was done, in order
      ensures came <= |meanwhile|
      ensures exists taken :: handled == old(handled) + taken && TakenFrom(old(commands), meanwhile, came, taken, commands)
      ensures end.End? <==> handled != old(handled) && handled[|handled| - 1] == Quit
      // one of them ended the step
      ensures stopped.Some? ==> end == stopped.value && log == at.log && handled != old(handled)
      ensures stopped == Some(Raised) ==> handled[|handled| - 1] in {ResetLogin, Login}
      ensures stopped == Some(Continue) ==> handled[|handled| - 1] == ResetLogin
      // or none waits any more and a poll follows, on a fresh Chrome when the person closed the one before
      ensures stopped == None ==> commands == [] && PollsChrome(at, end)
      ensures sent == old(sent) + Together(meanwhile[..came])
      ensures old(log) <= at.log && (old(commands) == [] ==> stopped == None && at == old(Seen()) && came == 0)
    {
      hide OpenNow, LastPoll, LoginOpened, LoginDue, SignedIn, GoodLog, PollsChrome, TakenFrom, HasWorker;
      var out;
      out, came := TakeCommands(meanwhile);
      stopped, at := out, Seen();
      if out.Some? {
        end := out.value;
      } else {
        end := PollChrome();
      }
    }

    /** The commands of a step, until none waits or one ends it. */
    method TakeCommands(meanwhile: seq<seq<Command>>) returns (stopped: Option<StepEnd>, ghost came: nat)
      requires Valid()
      modifies this`commands, this`sent, this`chrome, this`worker, this`updater, this`paused, this`signedIn, this`snapshot, this`calls, this`log, this`handled
      ensures stopped != Some(End) ==> Valid()
      ensures stopped == Some(End) ==> GoodLog(log) && OpenNow(log) == None
      ensures came <= |meanwhile| && old(log) <= log && sent == old(sent) + Together(meanwhile[..came])
      ensures exists taken :: handled == old(handled) + taken && TakenFrom(old(commands), meanwhile, came, taken, commands)
      ensures stopped == Some(End) <==> handled != old(handled) && handled[|handled| - 1] == Quit
      ensures stopped.Some? ==> handled != old(handled)
      ensures stopped == Some(Raised) ==> handled[|handled| - 1] in {ResetLogin, Login}
      ensures stopped == Some(Continue) ==> handled[|handled| - 1] == ResetLogin
      ensures stopped == None ==> commands == []
      ensures old(commands) == [] ==> stopped == None && Seen() == old(Seen()) && came == 0
    {
      hide OpenNow, LastPoll, LoginOpened, LoginDue, SignedIn, GoodLog, TakenFrom, SentSoFar, HasWorker;
      ghost var taken: seq<Command> := [];
      var k := 0;
      NoneSent(commands, meanwhile, sent);
      while commands != []
        invariant Valid() && handled == old(handled) + taken && k <= |meanwhile| && old(log) <= log
        invariant SentSoFar(old(sent), meanwhile, k, sent)
        invariant TakenFrom(old(commands), meanwhile, k, taken, commands)
        invariant taken != [] ==> taken[|taken| - 1] != Quit
        invariant old(commands) == [] ==> commands == taken == [] && Seen() == old(Seen()) && k == 0
        decreases |meanwhile| - k, |commands|
      {
        var command := commands[0];
        OneMoreTaken(old(commands), meanwhile, k, taken, commands);
        commands := commands[1..];
        taken := taken + [command];
        stopped := Do(command);
        if stopped.Some? {
          SentIs(old(sent), meanwhile, k, sent);
          return stopped, k;
        }
        if k < |meanwhile| {
          OneMoreSent(old(commands), meanwhile, k, taken, commands, old(sent), sent);
          SendAll(meanwhile[k]);
          k := k + 1;
        }
      }
      SentIs(old(sent), meanwhile, k, sent);
      stopped, came := None, k;
    }

    ghost function Seen(): Snapshot
      reads this
    {
      Snapshot(log, chrome, worker, updater, calls, paused)
    }

    /** The poll of a step: none without a worker, and on a fresh Chrome when the person closed the one
        before. */
    method PollChrome() returns (end: StepEnd)
      requires Valid()
      modifies this`chrome, this`worker, this`updater, this`paused, this`askedLogin, this`signedIn, this`snapshot, this`calls, this`log
      ensures Valid() && PollsChrome(old(Seen()), end) && !end.End?
    {
      hide OpenNow, LastPoll, LoginOpened, LoginDue, SignedIn, GoodLog, PollShows;
      if !worker {
        return Continue;
      }
      calls := calls + 1;
      if world.gone(calls - 1) {
        var ok := Reopen();
        if !ok {
          return Raised;
        }
        if !worker {
          return Continue;
        }
      }
      end := Poll();
    }

    /** The person closed Chrome: it is opened again, paused as before. */
    method Reopen() returns (ok: bool)
      requires Valid()
      modifies this`chrome, this`worker, this`updater, this`paused, this`snapshot, this`calls, this`log
      ensures Valid() && chrome == FirstStart(old(calls), 3)
      ensures worker == HasWorker(chrome) && ok == (chrome == None || AllMade(chrome, old(updater)))
      ensures ok && worker ==> calls == AfterOpening(chrome.value, old(updater)) && paused == old(paused)
      ensures log == old(log) + Closing(old(chrome)) + [Opening(chrome)]
    {
      hide OpenNow, LastPoll, LoginOpened, LoginDue, SignedIn, GoodLog, FirstStart;
      var was := paused;
      Close();
      ok := Open();
      if ok && worker {
        paused := was;
      }
    }

    ghost predicate PollsChrome(was: Snapshot, end: StepEnd)
      reads this
    {
      if !was.worker then end == Continue && log == was.log
      else if !world.gone(was.calls) then PollShows(was.log, log, was.calls + 1, was.paused, end)
      else
        var next := FirstStart(was.calls + 1, CHROME_TRIES);
        var reopened := was.log + Closing(was.chrome) + [Opening(next)];
        if AllMade(next, was.updater) then PollShows(reopened, log, AfterOpening(next.value, was.updater), was.paused, end)
        else end == (if next == None then Continue else Raised) && log == reopened
    }

    /** What a poll, call number n, adds to the log, and how the step ends: its status, the login page
        when it is due, and what is shown. */
    ghost predicate PollShows(before: seq<Event>, after: seq<Event>, n: nat, paused: bool, end: StepEnd) {
      var polled := if paused then Some(Paused) else world.polls(n);
      if polled.None? then end == Raised && after == before
      else
        var log1 := before + [Polled(polled.value)];
        var login := if LoginDue(log1) then [AutoLogin(world.logins(n + 1))] else [];
        if login == [AutoLogin(false)] then end == Raised && after == log1 + login
        else end == Continue && after == log1 + login + [Showed(ShownAs(polled.value, SignedIn(log1)))]
    }

    static function ShownAs(status: Status, signedIn: bool): Status {
      if status == NeedsLogin && signedIn then LoginExpired else status
    }

    /** One poll, and what follows from it. */
    method Poll() returns (end: StepEnd)
      requires Valid() && worker
      modifies this`askedLogin, this`signedIn, this`snapshot, this`calls, this`log
      ensures Valid() && PollShows(old(log), log, old(calls), paused, end) && !end.End?
    {
      hide OpenNow, LastPoll, LoginOpened, LoginDue, SignedIn, GoodLog;
      var polled := if paused then Some(Paused) else world.polls(calls);
      calls := calls + 1;
      if polled.None? {
        return Raised;
      }
      var status := polled.value;
      Happens(Polled(status));
      if status == NeedsLogin && !askedLogin {
        var ok := world.logins(calls);
        calls := calls + 1;
        Happens(AutoLogin(ok));
        if !ok {
          return Raised;
        }
      }
      askedLogin := status == NeedsLogin;
      signedIn := signedIn || status == Connected;
      Show(if status == NeedsLogin && signedIn then LoginExpired else status);
      end := Continue;
    }

    /** A step, and what is shown when it raised: the window must not freeze on it. */
    method GuardedStep(meanwhile: seq<seq<Command>>) returns (end: StepEnd)
      requires Valid() && InOrder()
      modifies this
      ensures end.End? ==> GoodLog(log) && OpenNow(log) == None
      ensures !end.End? ==> Valid()
      ensures old(sent) <= sent && InOrder()
      ensures end.End? ==> handled != [] && handled[|handled| - 1] == Quit
      ensures end.Raised? ==> snapshot == Error && log != [] && log[|log| - 1] == Showed(Error)
    {
      hide OpenNow, LastPoll, LoginOpened, LoginDue, SignedIn, GoodLog, PollsChrome, TakenFrom;
      ghost var stopped, at, came;
      ghost var sent0, handled0, commands0 := sent, handled, commands;
      end, stopped, at, came := Step(meanwhile);
      StaysInOrder(sent0, handled0, commands0, sent, handled, commands, meanwhile, came);
      if end.Raised? {
        Show(Error);
      }
    }

    /** The helper's life: Chrome is started, and steps follow until one ends it. It dies at the start,
        with its Chrome open, exactly when that Chrome's worker or the updater cannot be made: only the steps
        are guarded. */
    method Run(rounds: seq<Round>) returns (end: RunEnd)
      requires Valid() && InOrder() && log == [] && !updater
      modifies this
      ensures GoodLog(log)
      ensures end == Quitted ==> OpenNow(log) == None && handled != [] && handled[|handled| - 1] == Quit
      ensures var first := FirstStart(old(calls), 3);
              && (end == Died <==> first.Some? && !AllMade(first, false))
              && (end == Died ==> log == [Opening(first)] && OpenNow(log) == first)
      // every command sent was done, or still waits, in order; all that were to be sent were
      ensures InOrder() && (end == Running ==> |sent| >= |old(sent)| + Waiting(rounds))
    {
      hide FirstStart, HasWorker, AllMade, OpenNow, GoodLog, LoginDue, LoginOpened, SignedIn;
      EmptyLog();
      var ok := Open();
      if !ok {
        OnlyOpened(log, chrome);
        return Died;
      }
      end := Running;
      assert rounds[..0] == [];
      for i := 0 to |rounds|
        invariant Valid() && InOrder() && |sent| >= |old(sent)| + Waiting(rounds[..i])
      {
        SendAll(rounds[i].waiting);
        assert sent == handled + commands;
        assert rounds[..i + 1][..i] == rounds[..i];
        var step := GuardedStep(rounds[i].meanwhile);
        if step.End? {
          return Quitted;
        }
      }
      assert rounds[..|rounds|] == rounds;
    }
  }

  /** How many commands the window sends before the steps of `rounds`. */
  function Waiting(rounds: seq<Round>): nat {
    if rounds == [] then 0 else Waiting(rounds[..|rounds| - 1]) + |rounds[|rounds| - 1].waiting|
  }

  lemma EmptyLog()
    ensures OpenNow([]) == None && GoodLog([]) && !LoginDue([])
  {
  }

  lemma OnlyOpened(log: seq<Event>, chrome: Option<nat>)
    requires chrome.Some? && log == [Opened(chrome.value)]
    ensures OpenNow(log) == chrome && OneAtATime(log) && GoodLog(log)
  {
    assert log[..0] == [];
  }

  /** The commands there before and the first `k` batches sent meanwhile are, in order, those taken and
      those still waiting. */
  ghost predicate TakenFrom(before: seq<Command>, meanwhile: seq<seq<Command>>, k: nat, taken: seq<Command>, waiting: seq<Command>) {
    k <= |meanwhile| && before + Together(meanwhile[..k]) == taken + waiting
  }

  ghost predicate SentSoFar(before: seq<Command>, meanwhile: seq<seq<Command>>, k: nat, sent: seq<Command>) {
    k <= |meanwhile| && sent == before + Together(meanwhile[..k])
  }

  lemma SentIs(before: seq<Command>, meanwhile: seq<seq<Command>>, k: nat, sent: seq<Command>)
    requires SentSoFar(before, meanwhile, k, sent)
    ensures k <= |meanwhile| && sent == before + Together(meanwhile[..k])
  {
  }

  /** Commands taken from the front of the queue, and sent to its end, leave it in order. */
  lemma StaysInOrder(sent: seq<Command>, handled: seq<Command>, commands: seq<Command>,
                     sent': seq<Command>, handled': seq<Command>, commands': seq<Command>, meanwhile: seq<seq<Command>>, k: nat)
    requires sent == handled + commands && k <= |meanwhile| && sent' == sent + Together(meanwhile[..k])
    requires exists taken :: handled' == handled + taken && TakenFrom(commands, meanwhile, k, taken, commands')
    ensures sent' == handled' + commands'
  {
    var taken :| handled' == handled + taken && TakenFrom(commands, meanwhile, k, taken, commands');
    assert sent' == handled + (commands + Together(meanwhile[..k]));
    assert handled + (taken + commands') == handled + taken + commands';
  }

  lemma NoneSent(before: seq<Command>, meanwhile: seq<seq<Command>>, sent: seq<Command>)
    ensures TakenFrom(before, meanwhile, 0, [], before) && SentSoFar(sent, meanwhile, 0, sent)
  {
  }

  lemma OneMoreTaken(before: seq<Command>, meanwhile: seq<seq<Command>>, k: nat, taken: seq<Command>, waiting: seq<Command>)
    requires TakenFrom(before, meanwhile, k, taken, waiting) && waiting != []
    ensures TakenFrom(before, meanwhile, k, taken + [waiting[0]], waiting[1..])
  {
    assert taken + waiting == taken + [waiting[0]] + waiting[1..];
  }

  lemma OneMoreSent(before: seq<Command>, meanwhile: seq<seq<Command>>, k: nat, taken: seq<Command>, waiting: seq<Command>,
                    sentBefore: seq<Command>, sent: seq<Command>)
    requires TakenFrom(before, meanwhile, k, taken, waiting) && SentSoFar(sentBefore, meanwhile, k, sent) && k < |meanwhile|
    ensures TakenFrom(before, meanwhile, k + 1, taken, waiting + meanwhile[k])
    ensures SentSoFar(sentBefore, meanwhile, k + 1, sent + meanwhile[k])
  {
    assert sentBefore + (Together(meanwhile[..k]) + meanwhile[k]) == sent + meanwhile[k];
    assert meanwhile[..k + 1][..k] == meanwhile[..k];
    assert before + (Together(meanwhile[..k]) + meanwhile[k]) == taken + waiting + meanwhile[k];
    assert taken + waiting + meanwhile[k] == taken + (waiting + meanwhile[k]);
  }

  // ---- what a good log comes to ----

  /** Chromes opened and closed come in turn: there are as many of the one as of the other, but for
      the one that is open. */
  lemma {:induction false} OpenedAreClosed(log: seq<Event>)
    requires OneAtATime(log)
    ensures Count(log, IsOpened) == Count(log, IsClosed) + if OpenNow(log).Some? then 1 else 0
  {
    if log != [] {
      OpenedAreClosed(log[..|log| - 1]);
    }
  }

  /** Chrome is given up exactly when all three starts fail, and otherwise is the first that did not. */
  lemma ThreeTries(c: Controller, n: nat)
    ensures var chrome := c.FirstStart(n, 3);
            && (chrome == None <==> !c.world.starts(n) && !c.world.starts(n + 1) && !c.world.starts(n + 2))
            && (chrome.Some? ==>
                  && n <= chrome.value <= n + 2 && c.world.starts(chrome.value)
                  && forall i | n <= i < chrome.value :: !c.world.starts(i))
  {
    assert c.FirstStart(n + 3, 0) == None;
    assert c.FirstStart(n + 2, 1) == if c.world.starts(n + 2) then Some(n + 2) else None;
  }

  predicate IsOpened(e: Event) { e.Opened? }

  predicate IsClosed(e: Event) { e.Closed? }

  predicate IsAutoLogin(e: Event) { e == AutoLogin(true) }

  predicate IsAttempt(e: Event) { e.AutoLogin? }

  predicate IsMissing(e: Event) { e == Polled(NeedsLogin) }

  function Count(log: seq<Event>, p: Event -> bool): nat {
    if log == [] then 0 else Count(log[..|log| - 1], p) + if p(log[|log| - 1]) then 1 else 0
  }

  /** How many times the polls turned to a missing login. */
  function Lapses(log: seq<Event>): nat {
    if log == [] then 0
    else
      var before := log[..|log| - 1];
      Lapses(before) + if log[|log| - 1] == Polled(NeedsLogin) && LastPoll(before) != Some(NeedsLogin) then 1 else 0
  }

  lemma {:induction false} OpenedForALapse(log: seq<Event>)
    ensures LoginOpened(log) && LoginsFollowPolls(log) ==> LastPoll(log) == Some(NeedsLogin)
  {
    if log != [] {
      OpenedForALapse(log[..|log| - 1]);
    }
  }

  /** The login page is opened unasked at most once each time the polls turn to a missing login, and,
      as long as opening it never fails, exactly once each time; and failed or not, it is attempted at
      most once for each poll that finds the login missing. */
  lemma {:induction false} OneLoginALapse(log: seq<Event>)
    requires LoginsFollowPolls(log)
    ensures var auto := Count(log, IsAutoLogin);
            var waiting := if LastPoll(log) == Some(NeedsLogin) && !LoginOpened(log) then 1 else 0;
            && auto + waiting <= Lapses(log)
            && auto <= Count(log, IsAttempt)
            && Count(log, IsAttempt) + (if LoginDue(log) then 1 else 0) <= Count(log, IsMissing)
            && (AutoLogin(false) !in log ==> auto + waiting == Lapses(log) && (waiting == 1 ==> LoginDue(log)))
  {
    if log != [] {
      var before := log[..|log| - 1];
      OneLoginALapse(before);
      OpenedForALapse(before);
      assert AutoLogin(false) !in log ==> AutoLogin(false) !in before;
    }
  }
}
