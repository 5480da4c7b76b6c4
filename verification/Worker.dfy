/**
 The helper's loop: check in, take the person's next job, run its errand, hand the page back or say
 why it could not. What the server answers and what an errand comes to are the `World`'s to say.

 `log` is every exchange of the loop with the server, in order, with what came of it: the notes an errand
 sends from within are part of what the errand comes to. What a run must keep is said of the log and the
 rows handed to the history.
 */
module Worker {
  import opened Wrappers

  /** What ends an exchange with the server other than success. */
  datatype Trouble = NeedsLogin | UpdateRequired(manifest: string) | Offline(message: string) | Refused(message: string)

  type Reply = Option<Trouble>

  datatype Job = Job(id: string, kind: string, args: string)

  datatype Page = Page(title: string, url: string, markdown: string)

  /** What an errand comes to: its page, the server's trouble, or a failure of its own. */
  datatype ErrandEnd = Fetched(page: Page) | Stopped(trouble: Trouble) | Failed(message: string, name: string)

  datatype Row = Row(kind: string, args: string, site: string, outcome: string, reason: string)

  datatype Event =
    | CheckedIn(reply: Reply)
    | NoJob(reply: Reply)
    | Claimed(job: Job)
    | Interrupted(job: Job, reply: Reply)
    | FailSent(job: Job, site: string, reason: string, reply: Reply)
    | ResultSent(job: Job, site: string, page: Page, reply: Reply)

  /** What call number n comes to. `jobs` is what a claim that is answered hands out; `sites` the sites an
      errand says it is on, in order. */
  datatype World = World(
    replies: nat -> Reply,
    jobs: nat -> Option<Job>,
    ends: nat -> ErrandEnd,
    sites: nat -> seq<string>)

  datatype Status = Starting | Connected | Paused | SignIn | Update | Unreachable | Error

  /** What the window is told at once. */
  datatype Shown = Shown(status: Status, detail: string, kind: string, site: string)

  /** The last of the sites said. */
  function LastOf(sites: seq<string>): string {
    if sites == [] then "" else sites[|sites| - 1]
  }

  /** What the window is told of a job: that it starts, each site it is on, and that it is over. */
  function ShownOf(job: Job, sites: seq<string>, status: Status): seq<Shown> {
    [Shown(status, job.args, job.kind, "")] + ShownAt(job, sites, status) + [Shown(status, "", "", LastOf(sites))]
  }

  function ShownAt(job: Job, sites: seq<string>, status: Status): seq<Shown> {
    if sites == [] then []
    else ShownAt(job, sites[..|sites| - 1], status) + [Shown(status, job.args, job.kind, sites[|sites| - 1])]
  }

  const ERROR_CHARS: nat := 500

  function Cut(text: string): string {
    if |text| <= ERROR_CHARS then text else text[..ERROR_CHARS]
  }

  function Said(message: string, name: string): string {
    if message != "" then message else name
  }

  /** The reason told to the card: what the failure says, or its name when it says nothing, and no more of
      it than 500 characters. */
  lemma ReasonIsShort(message: string, name: string)
    ensures var reason := Cut(Said(message, name));
            && |reason| <= 500 && reason <= (if message == "" then name else message)
            && (|reason| < 500 ==> reason == if message == "" then name else message)
  {
  }

  // ---- what a log says ----

  /** The job under way, while it has no answer. */
  function Open(log: seq<Event>): Option<Job> {
    if log == [] then None
    else match log[|log| - 1]
      case Claimed(job) => Some(job)
      case _ => None
  }

  /** Each claimed job is answered once, by a failure or a result, or is cut short, before anything else
      is exchanged; nothing is said of a job that was not claimed. */
  predicate AnswersOnce(log: seq<Event>) {
    log == [] ||
    (var before := log[..|log| - 1];
     && AnswersOnce(before)
     && match log[|log| - 1]
        case Interrupted(job, reply) => Open(before) == Some(job) && reply.Some?
        case FailSent(job, _, _, _) => Open(before) == Some(job)
        case ResultSent(job, _, _, _) => Open(before) == Some(job)
        case _ => Open(before) == None)
  }

  /** An exchange that ended its job: a result the server took or refused, a failure it took. */
  predicate EndsJob(e: Event) {
    (e.FailSent? && e.reply == None) || (e.ResultSent? && (e.reply == None || e.reply.value.Refused?))
  }

  function RowOf(e: Event): Row
    requires EndsJob(e)
  {
    if e.FailSent? then Row(e.job.kind, e.job.args, e.site, "failed", e.reason)
    else if e.reply == None then Row(e.job.kind, e.job.args, e.site, "done", "")
    else Row(e.job.kind, e.job.args, e.site, "failed", Said(e.reply.value.message, "BackendError"))
  }

  /** Who reads a row learns what was asked and where, whether it was brought, and if not why. */
  lemma RowTells(e: Event)
    requires EndsJob(e)
    ensures var row := RowOf(e);
            && row.kind == e.job.kind && row.args == e.job.args && row.site == e.site
            && row.outcome == (if e.ResultSent? && e.reply == None then "done" else "failed")
            && row.reason == (if e.FailSent? then e.reason
                              else if e.reply == None then ""
                              else if e.reply.value.message == "" then "BackendError" else e.reply.value.message)
  {
  }

  /** The rows an exchange is worth. */
  function RowFor(e: Event): seq<Row> {
    if EndsJob(e) then [RowOf(e)] else []
  }

  function Rows(log: seq<Event>): seq<Row> {
    if log == [] then []
    else Rows(log[..|log| - 1]) + RowFor(log[|log| - 1])
  }

  function ReplyOf(e: Event): Reply {
    match e
    case Claimed(_) => None
    case CheckedIn(reply) => reply
    case NoJob(reply) => reply
    case Interrupted(_, reply) => reply
    case FailSent(_, _, _, reply) => reply
    case ResultSent(_, _, _, reply) => reply
  }

  function StatusOf(reply: Reply): Status {
    match reply
    case None => Connected
    case Some(NeedsLogin) => SignIn
    case Some(UpdateRequired(_)) => Update
    case Some(Offline(_)) => Unreachable
    case Some(Refused(_)) => Error
  }

  class Worker {
    const world: World
    const errands: set<string>
    var paused: bool
    var status: Status
    var detail: string
    var kind: string
    var site: string
    var manifest: string
    var logged: Option<(Status, string)>
    var warnings: seq<(Status, string)>
    var calls: nat
    /** The rows handed to the history. */
    var rows: seq<Row>
    var shown: seq<Shown>
    ghost var log: seq<Event>

    ghost predicate Valid()
      reads this
    {
      AnswersOnce(log) && rows == Rows(log) && kind == ""
    }

    constructor (world: World, errands: set<string>)
      ensures Valid() && log == [] && this.world == world && this.errands == errands
      ensures !paused && status == Starting && detail == site == "" && logged == None && warnings == [] && shown == []
    {
      this.world, this.errands := world, errands;
      paused, status, detail, kind, site, manifest := false, Starting, "", "", "", "";
      logged, warnings, calls, rows, shown, log := None, [], 0, [], [], [];
    }

    ghost method Happens(e: Event)
      modifies this`log
      ensures log == old(log) + [e]
      ensures Open(log) == if e.Claimed? then Some(e.job) else None
      ensures Rows(log) == Rows(old(log)) + RowFor(e)
      ensures CheckIns(log) == CheckIns(old(log)) + if e.CheckedIn? then 1 else 0
      ensures e.CheckedIn? || e.NoJob? || e.Claimed? || e.Interrupted? ==> RowFor(e) == []
      ensures AnswersOnce(log) <==>
              (&& AnswersOnce(old(log))
               && Open(old(log)) == (if e.Interrupted? || e.FailSent? || e.ResultSent? then Some(e.job) else None)
               && (e.Interrupted? ==> e.reply.Some?))
    {
      log := log + [e];
      assert log[..|log| - 1] == old(log);
    }

    /** One exchange with the server. */
    method Exchange() returns (reply: Reply)
      modifies this`calls
      ensures calls == old(calls) + 1 && reply == world.replies(old(calls))
    {
      reply := world.replies(calls);
      calls := calls + 1;
    }

    method Record(job: Job, outcome: string, reason: string)
      modifies this`rows
      ensures rows == old(rows) + [Row(job.kind, job.args, site, outcome, reason)]
    {
      rows := rows + [Row(job.kind, job.args, site, outcome, reason)];
    }

    /** One check-in and, with a job waiting, the job. */
    method Tick()
      requires Valid() && Open(log) == None
      modifies this
      ensures Valid() && Open(log) == None && old(log) <= log && paused == old(paused)
      ensures paused ==> status == Paused && log == old(log) && calls == old(calls) && warnings == old(warnings)
      // what the window shows is what the last exchange of this tick came to
      ensures !paused ==> Exchanges(log[|old(log)|..], old(calls))
      ensures !paused ==> |log| > |old(log)| && status == StatusOf(ReplyOf(log[|log| - 1]))
                          && Detail(ReplyOf(log[|log| - 1]), if |log| == |old(log)| + 1 then old(detail) else "") == detail
      ensures CheckIns(log) == CheckIns(old(log)) + if paused then 0 else 1
      // one row more exactly when that exchange ended a job: an answer taken, or a result refused
      ensures rows == old(rows) + if !paused && EndsJob(log[|log| - 1]) then [RowOf(log[|log| - 1])] else []
      // a failure is written down when it begins, not on every poll it lasts
      ensures !paused ==>
                var failing := status in {Unreachable, Error};
                && warnings == old(warnings) + (if failing && Some((status, detail)) != old(logged) then [(status, detail)] else [])
                && logged == if failing then Some((status, detail)) else None
    {
      hide AnswersOnce, Rows, Open, CheckIns, Exchanges, RowOf;
      if paused {
        status, detail, logged := Paused, "", None;
        return;
      }
      var trouble := CheckIn();
      match trouble {
        case None =>
        case Some(NeedsLogin) => status, detail := SignIn, "";
        case Some(UpdateRequired(m)) => status, manifest := Update, m;
        case Some(Offline(message)) => status, detail := Unreachable, message;
        case Some(Refused(message)) => status, detail := Error, message;
      }
      LogFailure();
    }

    /** Each failure is logged when it begins. */
    method LogFailure()
      modifies this`warnings, this`logged
      ensures var failing := status in {Unreachable, Error};
              && warnings == old(warnings) + (if failing && Some((status, detail)) != old(logged) then [(status, detail)] else [])
              && logged == if failing then Some((status, detail)) else None
    {
      var failed := if status == Unreachable || status == Error then Some((status, detail)) else None;
      if failed.Some? && failed != logged {
        warnings := warnings + [failed.value];
      }
      logged := failed;
    }

    /** A tick's exchanges, from call number n on: a check-in; taken, a claim; a job handed out, what
        became of it. */
    ghost predicate Exchanges(events: seq<Event>, n: nat) {
      && events != [] && events[0] == CheckedIn(world.replies(n))
      && if world.replies(n).Some? then |events| == 1
         else if world.replies(n + 1).Some? || world.jobs(n + 1).None? then events[1..] == [NoJob(world.replies(n + 1))]
         else
           var job := world.jobs(n + 1).value;
           |events| == 3 && events[1] == Claimed(job) && Handled(job, events[2], n + 2)
    }

    /** What became of a job: unknown here, it is failed; broken, failed with its reason; fetched, handed
        back; stopped by the server's trouble, cut short. */
    ghost predicate Handled(job: Job, e: Event, n: nat) {
      if job.kind !in errands then
        e.FailSent? && e.job == job && e.reply == world.replies(n)
        && e.reason == "this helper cannot do '" + job.kind + "' — update the helper"
      else match world.ends(n)
        case Fetched(page) => e == ResultSent(job, LastOf(world.sites(n)), page, world.replies(n + 1))
        case Stopped(trouble) => e == Interrupted(job, Some(trouble))
        case Failed(message, name) => e == FailSent(job, LastOf(world.sites(n)), Cut(Said(message, name)), world.replies(n + 1))
    }

    static function Unknown(kind: string): string {
      "this helper cannot do '" + kind + "' — update the helper"
    }

    method CheckIn() returns (trouble: Reply)
      requires Valid() && Open(log) == None
      modifies this`status, this`detail, this`kind, this`site, this`calls, this`rows, this`shown, this`log
      ensures Valid() && |log| > |old(log)| && old(log) <= log && Exchanges(log[|old(log)|..], old(calls))
      ensures CheckIns(log) == CheckIns(old(log)) + 1
      ensures Open(log) == None && rows == old(rows) + RowFor(log[|log| - 1])
      ensures trouble == ReplyOf(log[|log| - 1])
      ensures trouble == None ==> status == Connected
      ensures detail == if |log| == |old(log)| + 1 && trouble.Some? then old(detail) else ""
    {
      hide AnswersOnce, Rows, Open, CheckIns, Handled, RowFor;
      ghost var before := log;
      var reply := Exchange();
      Happens(CheckedIn(reply));
      if reply.Some? {
        return reply;
      }
      status, detail := Connected, "";
      reply := Exchange();
      var job := world.jobs(calls - 1);
      if reply.Some? || job.None? {
        Happens(NoJob(reply));
        assert log[|before|..] == [CheckedIn(None), NoJob(reply)];
        return reply;
      }
      Happens(Claimed(job.value));
      trouble := Run(job.value);
      assert log[|before|..] == [CheckedIn(None), Claimed(job.value), log[|log| - 1]];
    }

    /** One claimed job, to its answer or until it is cut short. */
    method Run(job: Job) returns (trouble: Reply)
      requires Valid() && Open(log) == Some(job) && log != [] && detail == ""
      modifies this`detail, this`kind, this`site, this`calls, this`rows, this`shown, this`log
      ensures shown == old(shown) + if job.kind in errands then ShownOf(job, world.sites(old(calls)), status) else []
      ensures Valid() && |log| == |old(log)| + 1 && old(log) <= log
      ensures Open(log) == None && rows == old(rows) + RowFor(log[|log| - 1])
      ensures CheckIns(log) == CheckIns(old(log))
      ensures trouble == ReplyOf(log[|log| - 1]) && detail == ""
      ensures Handled(job, log[|log| - 1], old(calls))
    {
      hide AnswersOnce, Rows, Open, CheckIns, ShownOf, RowFor, Cut, Said;
      if job.kind !in errands {
        trouble := Fail(job, "", Unknown(job.kind));
        return;
      }
      var end := world.ends(calls);
      ShowErrand(job, world.sites(calls));
      calls := calls + 1;
      match end {
        case Stopped(t) =>
          Happens(Interrupted(job, Some(t)));
          trouble := Some(t);
        case Failed(message, name) =>
          trouble := Fail(job, site, Cut(Said(message, name)));
        case Fetched(page) =>
          trouble := HandBack(job, page);
      }
    }

    /** What the window is told while an errand runs, and what is left of it then. */
    method ShowErrand(job: Job, sites: seq<string>)
      modifies this`detail, this`kind, this`site, this`shown
      ensures shown == old(shown) + ShownOf(job, sites, status) && detail == kind == "" && site == LastOf(sites)
    {
      detail, kind, site := job.args, job.kind, "";
      Changed();
      for i := 0 to |sites|
        invariant detail == job.args && kind == job.kind && site == LastOf(sites[..i])
        invariant shown == old(shown) + ([Shown(status, job.args, job.kind, "")] + ShownAt(job, sites[..i], status))
      {
        At(sites[i]);
        assert sites[..i + 1][..i] == sites[..i];
      }
      assert sites[..|sites|] == sites;
      detail, kind := "", "";
      Changed();
    }

    method Changed()
      modifies this`shown
      ensures shown == old(shown) + [Shown(status, detail, kind, site)]
    {
      shown := shown + [Shown(status, detail, kind, site)];
    }

    method At(at: string)
      modifies this`site, this`shown
      ensures site == at && shown == old(shown) + [Shown(status, detail, kind, at)]
    {
      site := at;
      Changed();
    }

    /** The failure is told to the card and, told, recorded. */
    method Fail(job: Job, at: string, reason: string) returns (reply: Reply)
      requires Valid() && Open(log) == Some(job)
      modifies this`site, this`calls, this`rows, this`log
      ensures Valid() && log == old(log) + [FailSent(job, at, reason, reply)] && reply == world.replies(old(calls))
      ensures Open(log) == None && rows == old(rows) + RowFor(log[|log| - 1])
      ensures CheckIns(log) == CheckIns(old(log))
    {
      hide AnswersOnce, Rows, Open, CheckIns;
      reply := Exchange();
      Happens(FailSent(job, at, reason, reply));
      if reply == None {
        site := at;
        Record(job, "failed", reason);
      }
    }

    /** The page is handed back; taken or refused, the job ended and is recorded. */
    method HandBack(job: Job, page: Page) returns (reply: Reply)
      requires Valid() && Open(log) == Some(job)
      modifies this`calls, this`rows, this`log
      ensures Valid() && log == old(log) + [ResultSent(job, site, page, reply)] && reply == world.replies(old(calls))
      ensures Open(log) == None && rows == old(rows) + RowFor(log[|log| - 1])
      ensures CheckIns(log) == CheckIns(old(log))
    {
      hide AnswersOnce, Rows, Open, CheckIns;
      reply := Exchange();
      Happens(ResultSent(job, site, page, reply));
      match reply {
        case None => Record(job, "done", "");
        case Some(Refused(message)) => Record(job, "failed", Said(message, "BackendError"));
        case _ =>
      }
    }

    /** Any number of ticks. */
    method Live(ticks: nat, pauses: nat -> bool)
      requires Valid() && Open(log) == None
      modifies this
      ensures Valid() && Open(log) == None && old(log) <= log
      ensures Claims(log) == |rows| + NotTaken(log) + CutsShort(log)
      // each tick that is not paused checks in once
      ensures CheckIns(log) == CheckIns(old(log)) + Unpaused(pauses, ticks)
    {
      hide AnswersOnce, Rows, CheckIns, Claims, NotTaken, CutsShort, EndsJob, StatusOf, Detail, ReplyOf, Exchanges;
      for i := 0 to ticks
        invariant Valid() && Open(log) == None && old(log) <= log
        invariant CheckIns(log) == CheckIns(old(log)) + Unpaused(pauses, i)
      {
        paused := pauses(i);
        Tick();
      }
      JobsAreAccountedFor(log);
    }
  }

  function Detail(reply: Reply, before: string): string {
    match reply
    case None | Some(NeedsLogin) => ""
    case Some(UpdateRequired(_)) => before
    case Some(Offline(message)) => message
    case Some(Refused(message)) => message
  }

  // ---- what a good log comes to ----

  function CheckIns(log: seq<Event>): nat {
    if log == [] then 0 else CheckIns(log[..|log| - 1]) + if log[|log| - 1].CheckedIn? then 1 else 0
  }

  /** How many of the first `n` ticks are not paused. */
  function Unpaused(pauses: nat -> bool, n: nat): nat {
    if n == 0 then 0 else Unpaused(pauses, n - 1) + if pauses(n - 1) then 0 else 1
  }

  function Claims(log: seq<Event>): nat {
    if log == [] then 0 else Claims(log[..|log| - 1]) + if log[|log| - 1].Claimed? then 1 else 0
  }

  /** Answers that ended no job here: a failure the server did not take, and a result that did not reach
      it. A refused result is not one of them: the server ended that job. */
  function NotTaken(log: seq<Event>): nat {
    if log == [] then 0
    else
      NotTaken(log[..|log| - 1]) +
      match log[|log| - 1]
      case FailSent(_, _, _, Some(_)) => 1
      case ResultSent(_, _, _, Some(trouble)) => if trouble.Refused? then 0 else 1
      case _ => 0
  }

  function CutsShort(log: seq<Event>): nat {
    if log == [] then 0 else CutsShort(log[..|log| - 1]) + if log[|log| - 1].Interrupted? then 1 else 0
  }

  /** Every claimed job is in exactly one place: its row is in the history, its answer was not taken, it
      was cut short, or it is under way. */
  lemma {:induction false} JobsAreAccountedFor(log: seq<Event>)
    requires AnswersOnce(log)
    ensures Claims(log) == |Rows(log)| + NotTaken(log) + CutsShort(log) + if Open(log).Some? then 1 else 0
  {
    if log != [] {
      JobsAreAccountedFor(log[..|log| - 1]);
    }
  }

  // ---- asking the external AI ----

  /** An exception: the mark `h` puts on its own line to the server, or any other. `looksLike` is the
      server's trouble another one is by its type, if any: a time-out of the site's own is an OSError
      too. */
  datatype Exception = ServerLine(original: Trouble) | Other(looksLike: Option<Trouble>, message: string, name: string)

  /** What running an errand ends in: its page, or an exception. */
  datatype Ending = Brought(page: Page) | Raise(exception: Exception)

  /** What the worker makes of it, by the exception's type. */
  function Caught(e: Ending): ErrandEnd {
    match e
    case Brought(page) => Fetched(page)
    case Raise(Other(Some(trouble), _, _)) => Stopped(trouble)
    case Raise(Other(None, message, name)) => Failed(message, name)
    case Raise(ServerLine(_)) => Failed("", "_ServerLine")
  }

  /** The site file's call ends in an answer (None: something that is no text), or raises. */
  datatype SiteEnd = Answered(answer: Option<string>) | Raising(exception: Exception)

  /** Telling the card through `h`: any trouble of the server's is marked. */
  function Tell(reply: Reply): Option<Exception> {
    if reply.Some? then Some(ServerLine(reply.value)) else None
  }

  /** The converter gives a text or raises; it runs for an answer that is HTML. */
  datatype Conversion = Text(markdown: string) | Broke(exception: Exception)

  datatype Converter = Converter(isHtml: string -> bool, convert: string -> Conversion)

  /** A character `strip` takes away. */
  predicate Space(c: char) {
    || '\t' <= c <= '\r' || '\U{1c}' <= c <= ' ' || '\U{2000}' <= c <= '\U{200a}'
    || c in "\U{85}\U{a0}\U{1680}\U{2028}\U{2029}\U{202f}\U{205f}\U{3000}"
  }

  predicate Blank(s: string) {
    forall c | c in s :: Space(c)
  }

  function ErrandFailed(message: string): Ending {
    Raise(Other(None, message, "ErrandFailed"))
  }

  function AskExtAi(site: SiteEnd, mask: string -> string, c: Converter): Ending {
    match site
    case Raising(ServerLine(original)) => Raise(Other(Some(original), "", ""))
    case Raising(Other(_, message, name)) => ErrandFailed(mask(Said(message, name)))
    case Answered(None) => ErrandFailed("外部AI 的網站檔沒有交回回答")
    case Answered(Some(answer)) =>
      if Blank(answer) then ErrandFailed("外部AI 的網站檔沒有交回回答")
      else
        match if c.isHtml(answer) then c.convert(answer) else Text(answer)
        case Broke(exception) => Raise(exception)
        case Text(markdown) =>
          if Blank(markdown) then ErrandFailed("外部AI 的回答轉出來沒有文字")
          else Brought(Page("外部AI", "", markdown))
  }

  /** The helper's own converter raised over the site's answer, and it looks like that trouble by its type. */
  predicate ConverterLooksLike(site: SiteEnd, c: Converter, t: Trouble) {
    && site.Answered? && site.answer.Some? && !Blank(site.answer.value) && c.isHtml(site.answer.value)
    && var conversion := c.convert(site.answer.value);
       conversion.Broke? && conversion.exception.Other? && conversion.exception.looksLike == Some(t)
  }

  /** Whatever a site file raises, and whatever its type looks like, the worker takes it for the job's
      failure, unless it is the mark of `h`'s own line to the server: then for that line's very trouble.
      The one other way to the server's trouble is the converter raising something of such a type. */
  lemma OnlyTheLineIsServerTrouble(site: SiteEnd, mask: string -> string, c: Converter, t: Trouble)
    ensures Caught(AskExtAi(site, mask, c)) == Stopped(t) <==>
            (site.Raising? && Some(site.exception) == Tell(Some(t))) || ConverterLooksLike(site, c, t)
    ensures site.Raising? && site.exception.Other? ==>
              Caught(AskExtAi(site, mask, c)) == Failed(mask(Said(site.exception.message, site.exception.name)), "ErrandFailed")
    ensures Caught(AskExtAi(site, mask, c)).Fetched? ==>
              site.Answered? && site.answer.Some? && !Blank(Caught(AskExtAi(site, mask, c)).page.markdown)
  {
  }

  /** The page is the answer, converted when it is HTML and as it is otherwise; it is brought exactly when
      neither the answer nor that has nothing to read in it, and the conversion did not fail. */
  lemma AnswerIsBrought(answer: string, mask: string -> string, c: Converter)
    ensures var end := Caught(AskExtAi(Answered(Some(answer)), mask, c));
            && (end.Fetched? ==> end.page.title == "外部AI" && end.page.url == "")
            && (Blank(answer) ==> end == Failed("外部AI 的網站檔沒有交回回答", "ErrandFailed"))
            && (!Blank(answer) && !end.Fetched? && (c.isHtml(answer) ==> c.convert(answer).Text?) ==>
                  end == Failed("外部AI 的回答轉出來沒有文字", "ErrandFailed"))
            && (c.isHtml(answer) ==>
                  (end.Fetched? <==> !Blank(answer) && c.convert(answer).Text? && !Blank(c.convert(answer).markdown)) &&
                  (end.Fetched? ==> end.page.markdown == c.convert(answer).markdown))
            && (!c.isHtml(answer) ==> (end.Fetched? <==> !Blank(answer)) && (end.Fetched? ==> end.page.markdown == answer))
  {
  }

  /** What counts as space: what Unicode says is, and the four separators before it. */
  lemma SpacesAre()
    ensures Space('\t') && Space('\n') && Space('\U{b}') && Space('\U{c}') && Space('\r') && Space(' ')
    ensures Space('\U{1c}') && Space('\U{1d}') && Space('\U{1e}') && Space('\U{1f}') && Space('\U{2000}') && Space('\U{200a}')
    ensures !Space('\U{8}') && !Space('\U{e}') && !Space('\U{1b}') && !Space('!') && !Space('\U{1fff}') && !Space('\U{200b}')
    ensures OtherSpaces("\U{85}\U{a0}\U{1680}\U{2028}\U{2029}\U{202f}\U{205f}\U{3000}")
  {
  }

  predicate OtherSpaces(s: string) {
    forall i | 0 <= i < |s| :: Space(s[i])
  }

  /** A text is blank exactly when every part of it is. */
  lemma BlankParts(a: string, b: string)
    ensures Blank(a + b) <==> Blank(a) && Blank(b)
    ensures forall c :: Blank([c]) <==> Space(c)
  {
    hide Space;
    if Blank(a + b) {
      assert forall c | c in a :: c in a + b;
      assert forall c | c in b :: c in a + b;
    }
    forall c
      ensures Blank([c]) <==> Space(c)
    {
      assert [c][0] in [c];
    }
  }
}
