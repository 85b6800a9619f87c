/** `main` of appswitch 1.0 and of 1.0d1: parse the command line, find the
    process, then ask the system for the primary action, the global action
    and the final action, in that order, stopping at the first failure.  The
    system calls appear as a trace of requests and their replies as inputs. */
module Program {
  import opened Text
  import opened Status
  import opened Args
  import opened Records
  import opened Listing
  import opened Matching

  /** The system operations the dispatch asks for. */
  datatype Request =
    | SetFrontProcess(psn: Psn)          // CPSSetFrontProcess
    | PostShow(psn: Psn)                 // CPSPostShowReq
    | PostHide(psn: Psn)                 // CPSPostHideReq
    | QuitApplication(psn: Psn)          // the quit Apple event
    | PostKill(psn: Psn, hard: bool)     // CPSPostKillRequest, bfCPSKillHard when hard
    | PostShowAll(psn: Psn)              // CPSPostShowAllReq
    | PostHideMost(psn: Psn)             // CPSPostHideMostReq
    | GetFrontProcess                    // frontApplication() for -F
    | Pause                              // usleep(750000)

  /** The statuses the system returns: `primary` for the primary action's
      request, `global` for -S/-H, and `show` and `setFront` for the two
      requests of -F. */
  datatype Replies = Replies(primary: int, global: int, show: int, setFront: int)

  /** Everything the run reads from its surroundings: the process
      enumeration, what `CPSGetFrontProcess` returns inside
      `matchApplication` and later for -F, whether one of the `TIOCGWINSZ`
      calls succeeded and the `ws_col` it leaves, the replies, and the pid
      an uninitialised information record would hold. */
  datatype World = World(
    enumeration: Enumeration, front: FrontReply, finalFront: FrontReply,
    ioctlOk: bool, wsCol: Columns, replies: Replies, stalePid: int)

  /** The terminal width the listing is laid out for. */
  function Width(w: World): int {
    TermWidth(w.ioctlOk, w.wsCol)
  }

  /** What part of a run printed on standard output, the requests it made,
      and the failure that ended it, if one did. */
  datatype Effect = Effect(out: string, trace: seq<Request>, failure: Option<Failure>)

  datatype Exit = Success | Failed(failure: Failure)

  /** A whole run: standard output, the requests, and the exit (0 on
      success, 1 with a message on standard error on failure). */
  datatype Outcome = Outcome(out: string, trace: seq<Request>, exit: Exit)

  const NoProcessId := "can't get process ID"
  const BringToFront := "bring current application's windows to the front"

  /** Running one step after another: a failing step ends the run. */
  function Then(first: Effect, next: Effect): Effect {
    if first.failure.Some? then first
    else Effect(first.out + next.out, first.trace + next.trace, next.failure)
  }

  /** `osstatusexit(err, what)` when `err` is not noErr. */
  function Check(err: int, what: string): Option<Failure> {
    if err != NoErr then Some(StatusExit(err, what)) else None
  }

  /** The pid `-P` prints: that of the information record read for the
      match, or whatever the record holds when the process came from
      `CPSGetFrontProcess`. */
  function PidOf(m: Matched, w: World): int {
    if m.info.Some? then m.info.value.pid else w.stalePid
  }

  /** The request of a primary action that makes one, with its verb. */
  function PrimaryRequest(a: AppAction, psn: Psn): Option<(Request, string)> {
    match a
    case Switch => Some((SetFrontProcess(psn), "set front"))
    case Show => Some((PostShow(psn), "show"))
    case Hide => Some((PostHide(psn), "hide"))
    case Quit => Some((QuitApplication(psn), "quit"))
    case Kill => Some((PostKill(psn, false), "kill"))
    case KillHard => Some((PostKill(psn, true), "kill"))
    case _ => None
  }

  /** The first `switch (OPTS.appAction)`. */
  function Primary(o: Opts, m: Matched, w: World): Effect {
    match o.appAction
    case AppNone => Effect("", [], None)
    case List => Effect("", [], None)
    case PrintPid =>
      var pid := PidOf(m, w);
      if pid <= 0 then Effect("", [], Some(ErrExit(NoProcessId)))
      else Effect(Decimal(pid) + "\n", [], None)
    case _ =>
      var (request, verb) := PrimaryRequest(o.appAction, m.psn).value;
      Effect("", [request], Check(w.replies.primary, "can't " + verb + " process"))
  }

  /** The request of a global action, with its verb. */
  function GlobalRequest(a: GlobalAction, psn: Psn): Option<(Request, string)> {
    match a
    case ActionNone => None
    case ShowAll => Some((PostShowAll(psn), "show all"))
    case HideOthers => Some((PostHideMost(psn), "hide other"))
  }

  /** The second `switch (OPTS.action)`. */
  function Global(o: Opts, m: Matched, w: World): Effect {
    match GlobalRequest(o.action, m.psn)
    case None => Effect("", [], None)
    case Some((request, verb)) => Effect("", [request], Check(w.replies.global, "can't " + verb + " processes"))
  }

  /** The third `switch (OPTS.finalAction)`: the front process is fetched
      again, the pause comes only after a global action, and the status is
      `CPSPostShowReq(&psn) || CPSSetFrontProcess(&psn)`, which skips the
      second request when the first fails and is 0 or 1. */
  function Final(o: Opts, w: World): Effect {
    match o.finalAction
    case FinalNone => Effect("", [], None)
    case FinalSwitch =>
      match w.finalFront
      case FrontFailed(st) => Effect("", [GetFrontProcess], Some(StatusExit(st, "can't get frontmost process")))
      case FrontIs(psn) =>
        var pause := if o.action != ActionNone then [Pause] else [];
        var setFront := if w.replies.show == NoErr then [SetFrontProcess(psn)] else [];
        var err := if w.replies.show != NoErr || w.replies.setFront != NoErr then 1 else 0;
        Effect("", [GetFrontProcess] + pause + [PostShow(psn)] + setFront, Check(err, "can't " + BringToFront))
  }

  /** The dispatch after the match. */
  function Actions(o: Opts, m: Matched, w: World): Effect {
    Then(Primary(o, m, w), Then(Global(o, m, w), Final(o, w)))
  }

  /** The first switch of `main` and its status check. */
  method PrimaryAction(o: Opts, m: Matched, w: World) returns (e: Effect)
    ensures e == Primary(o, m, w)
  {
    var err := NoErr;
    var verb := "";
    e := Effect("", [], None);
    match o.appAction {
      case AppNone =>
      case List =>
      case PrintPid =>
        var pid := PidOf(m, w);
        if pid <= 0 {
          return Effect("", [], Some(ErrExit(NoProcessId)));
        }
        e := Effect(Decimal(pid) + "\n", [], None);
      case _ =>
        var (request, v) := PrimaryRequest(o.appAction, m.psn).value;
        e := Effect("", [request], None);
        err := w.replies.primary;
        verb := v;
    }
    if err != NoErr {
      e := e.(failure := Some(StatusExit(err, "can't " + verb + " process")));
    }
  }

  /** The second switch of `main` and its status check. */
  method GlobalAction(o: Opts, m: Matched, w: World) returns (e: Effect)
    ensures e == Global(o, m, w)
  {
    var err := NoErr;
    var verb := "";
    e := Effect("", [], None);
    match o.action {
      case ActionNone =>
      case _ =>
        var (request, v) := GlobalRequest(o.action, m.psn).value;
        e := Effect("", [request], None);
        err := w.replies.global;
        verb := v;
    }
    if err != NoErr {
      e := e.(failure := Some(StatusExit(err, "can't " + verb + " processes")));
    }
  }

  /** The third switch of `main` and its status check. */
  method FinalAction(o: Opts, w: World) returns (e: Effect)
    ensures e == Final(o, w)
  {
    var err := NoErr;
    var verb := "";
    var trace: seq<Request> := [];
    match o.finalAction {
      case FinalNone =>
      case FinalSwitch =>
        trace := trace + [GetFrontProcess];
        if w.finalFront.FrontFailed? {
          return Effect("", trace, Some(StatusExit(w.finalFront.status, "can't get frontmost process")));
        }
        var psn := w.finalFront.psn;
        if o.action != ActionNone {
          trace := trace + [Pause];
        }
        trace := trace + [PostShow(psn)];
        if w.replies.show != NoErr {
          err := 1;
        } else {
          trace := trace + [SetFrontProcess(psn)];
          err := if w.replies.setFront != NoErr then 1 else 0;
        }
        verb := BringToFront;
    }
    e := Effect("", trace, if err != NoErr then Some(StatusExit(err, "can't " + verb)) else None);
  }

  /** The dispatch as `main` runs it: each switch, then `exit(0)`; a
      failing step exits at once. */
  method RunActions(o: Opts, m: Matched, w: World) returns (e: Effect)
    ensures e == Actions(o, m, w)
  {
    e := PrimaryAction(o, m, w);
    if e.failure.Some? {
      return;
    }
    var g := GlobalAction(o, m, w);
    if g.failure.Some? {
      return Then(e, g);
    }
    var f := FinalAction(o, w);
    e := Then(e, Then(g, f));
  }

  // ---------------------------------------------------------------------
  // Properties of the dispatch
  // ---------------------------------------------------------------------

  /** A failing primary request ends the run: no global or final request
      follows it, and the failure names the action. */
  lemma PrimaryFailureStopsRun(o: Opts, m: Matched, w: World)
    requires PrimaryRequest(o.appAction, m.psn).Some? && w.replies.primary != NoErr
    ensures var (request, verb) := PrimaryRequest(o.appAction, m.psn).value;
      Actions(o, m, w) == Effect("", [request], Some(StatusExit(w.replies.primary, "can't " + verb + " process")))
  {
  }

  /** A failing global request ends the run before the final action. */
  lemma GlobalFailureStopsRun(o: Opts, m: Matched, w: World)
    requires Primary(o, m, w).failure.None? && o.action != ActionNone && w.replies.global != NoErr
    ensures var a := Actions(o, m, w);
      && a.failure.Some? && a.failure.value.StatusExit? && a.failure.value.status == w.replies.global
      && a.trace == Primary(o, m, w).trace + [if o.action == ShowAll then PostShowAll(m.psn) else PostHideMost(m.psn)]
      && GetFrontProcess !in a.trace && Pause !in a.trace
  {
    var p := Primary(o, m, w);
    assert forall r :: r in p.trace ==> !r.GetFrontProcess? && !r.Pause?;
  }

  /** The requests come in the order primary, global, final: every request
      of the primary action precedes every request of the global action,
      which precede those of the final action. */
  lemma RequestsInOrder(o: Opts, m: Matched, w: World)
    requires Actions(o, m, w).failure.None?
    ensures Actions(o, m, w).trace == Primary(o, m, w).trace + Global(o, m, w).trace + Final(o, w).trace
    ensures |Primary(o, m, w).trace| <= 1 && |Global(o, m, w).trace| <= 1
    ensures Final(o, w).trace != [] ==> Final(o, w).trace[0] == GetFrontProcess
  {
  }

  /** The pause happens exactly when -F follows a global action and the run
      got as far as the final action's front process. */
  lemma PauseOnlyAfterGlobal(o: Opts, m: Matched, w: World)
    ensures Pause in Actions(o, m, w).trace <==>
      && Primary(o, m, w).failure.None?
      && Global(o, m, w).failure.None?
      && o.action != ActionNone
      && o.finalAction == FinalSwitch
      && w.finalFront.FrontIs?
  {
    var p := Primary(o, m, w);
    var g := Global(o, m, w);
    assert Pause !in p.trace && Pause !in g.trace;
  }

  /** The status of -F collapses to 1: the run fails exactly when showing or
      bringing to front fails, always with status 1, whose description is
      "unknown error"; a failed show skips bringing to front. */
  lemma FinalStatusCollapses(o: Opts, w: World)
    requires o.finalAction == FinalSwitch && w.finalFront.FrontIs?
    ensures Final(o, w).failure.Some? <==> (w.replies.show != NoErr || w.replies.setFront != NoErr)
    ensures Final(o, w).failure.Some? ==> Final(o, w).failure.value == StatusExit(1, "can't " + BringToFront)
    ensures SetFrontProcess(w.finalFront.psn) in Final(o, w).trace <==> w.replies.show == NoErr
    ensures Describe(1) == UnknownError
  {
    var t := Final(o, w).trace;
    if w.replies.show != NoErr {
      assert forall r :: r in t ==> !r.SetFrontProcess?;
    }
    LookupFindsFirst(Errs, 1, 0, 4);
  }

  /** -P prints the pid when it is positive, in a form that reads back as
      the same number, and fails otherwise without printing. */
  lemma PrintPidOutput(o: Opts, m: Matched, w: World)
    requires o.appAction == PrintPid
    ensures PidOf(m, w) <= 0 ==> Primary(o, m, w) == Effect("", [], Some(ErrExit(NoProcessId)))
    ensures PidOf(m, w) > 0 ==>
      && Primary(o, m, w).failure.None?
      && Primary(o, m, w).trace == []
      && ScanInt(Primary(o, m, w).out) == Some(PidOf(m, w))
  {
    if PidOf(m, w) > 0 {
      ScanDecimal(PidOf(m, w), "\n");
    }
  }

  // ---------------------------------------------------------------------
  // The whole run
  // ---------------------------------------------------------------------

  /** What 1.0 does with an accepted request: the match, then the actions. */
  function Dispatch(o: Opts, w: World): Outcome {
    var (listing, matched) := MatchSpec(o, Width(w), w.enumeration, w.front);
    match matched
    case Fail(f) => Outcome(listing, [], Failed(f))
    case Ok(m) =>
      var a := Actions(o, m, w);
      Outcome(listing + a.out, a.trace, if a.failure.Some? then Failed(a.failure.value) else Success)
  }

  /** A run of appswitch 1.0. */
  function Run(cl: CommandLine, w: World): Outcome {
    match Parse(cl)
    case Fail(f) => Outcome("", [], Failed(f))
    case Ok(o) => Dispatch(o, w)
  }

  /** `main` of 1.0. */
  method AppSwitch(cl: CommandLine, w: World) returns (outcome: Outcome)
    ensures outcome == Run(cl, w)
  {
    var parsed := GetArgs(cl);
    if parsed.Fail? {
      return Outcome("", [], Failed(parsed.failure));
    }
    var o := parsed.value;
    var listing, matched := MatchApplication(o, Width(w), w.enumeration, w.front);
    if matched.Fail? {
      return Outcome(listing, [], Failed(matched.failure));
    }
    var a := RunActions(o, matched.value, w);
    outcome := Outcome(listing + a.out, a.trace, if a.failure.Some? then Failed(a.failure.value) else Success);
  }

  /** A rejected command line makes no request and prints nothing. */
  lemma RejectedCommandLineDoesNothing(cl: CommandLine, w: World)
    requires Parse(cl).Fail?
    ensures Run(cl, w) == Outcome("", [], Failed(Parse(cl).failure))
    ensures cl.argc == 1 ==> Run(cl, w).exit == Failed(Usage)
  {
    if cl.argc == 1 {
      assert Parse(cl) == Fail(Usage);
    }
  }

  /** A plain switch: with a criterion and no other option, the first
      matching process is brought to the front, and nothing else is asked. */
  lemma SwitchBringsFirstMatchToFront(cl: CommandLine, w: World, k: nat)
    requires Parse(cl).Ok?
    requires var o := Parse(cl).value;
      o.appAction == Switch && o.action == ActionNone && o.finalAction == FinalNone && o.matchType != Front
    requires k < |w.enumeration.slots|
    requires Accepts(Parse(cl).value.matchType, false, w.enumeration, k)
    requires forall j :: 0 <= j < k ==> Passes(Parse(cl).value.matchType, false, w.enumeration, j)
    ensures Run(cl, w) == Outcome("", [SetFrontProcess(w.enumeration.slots[k].psn)],
      if w.replies.primary == NoErr then Success else Failed(StatusExit(w.replies.primary, "can't set front process")))
  {
    var o := Parse(cl).value;
    SelectReturnsFirstMatch(o, Width(w), w.enumeration, w.front, k);
    var m := Matched(w.enumeration.slots[k].psn, Some(w.enumeration.slots[k].reply.info));
    assert "can't " + "set front" + " process" == "can't set front process";
    assert Actions(o, m, w) == Primary(o, m, w);
  }

  // ---------------------------------------------------------------------
  // appswitch 1.0d1
  // ---------------------------------------------------------------------

  /** What 1.0d1 does with an accepted criterion: the first match is
      brought to the front. */
  function LegacySwitch(c: Criterion, w: World): Outcome {
    var scan := ScanFrom(c, true, Select, w.enumeration, 0);
    match scan.stop
    case FoundAt(k) =>
      var psn := w.enumeration.slots[k].psn;
      Outcome("", [SetFrontProcess(psn)],
        if w.replies.primary != NoErr then Failed(StatusExit(w.replies.primary, "can't set front process")) else Success)
    case EndReached => Outcome("", [], Failed(ErrExit(NoMatchingProcess)))
    case Stopped(t) => Outcome("", [], Failed(Report(t)))
  }

  /** A run of 1.0d1. */
  function LegacyRun(cl: CommandLine, w: World): Outcome {
    match LegacyParse(cl)
    case Fail(f) => Outcome("", [], Failed(f))
    case Ok(c) => LegacySwitch(c, w)
  }

  /** `main` of 1.0d1. */
  method LegacyMain(cl: CommandLine, w: World) returns (outcome: Outcome)
    ensures outcome == LegacyRun(cl, w)
  {
    var parsed := LegacyParse(cl);
    if parsed.Fail? {
      return Outcome("", [], Failed(parsed.failure));
    }
    var rows, stop := EnumerateMatches(parsed.value, true, Select, w.enumeration);
    match stop {
      case FoundAt(k) =>
        var psn := w.enumeration.slots[k].psn;
        var err := w.replies.primary;
        if err != NoErr {
          return Outcome("", [SetFrontProcess(psn)], Failed(StatusExit(err, "can't set front process")));
        }
        return Outcome("", [SetFrontProcess(psn)], Success);
      case EndReached =>
        return Outcome("", [], Failed(ErrExit(NoMatchingProcess)));
      case Stopped(t) =>
        return Outcome("", [], Failed(Report(t)));
    }
  }

  /** On every command line 1.0d1 accepts, 1.0 does exactly the same: the
      same output, the same requests and the same exit. */
  lemma VersionsAgree(cl: CommandLine, w: World)
    requires forall k :: 0 <= k < |cl.items| ==> KindOf(cl.items[k].ch) == CriterionOption
    requires LegacyParse(cl).Ok?
    ensures Run(cl, w) == LegacyRun(cl, w)
  {
    LegacyAgreesOnCriteria(cl);
    SwitchAlike(LegacyParse(cl).value, w);
  }

  /** With a criterion 1.0d1 accepts and SWITCH as the only action, 1.0
      does what 1.0d1 does. */
  lemma SwitchAlike(c: Criterion, w: World)
    requires c.Pid? || c.Creator? || c.BundleId? || c.Name? || c.Path?
    ensures Dispatch(Opts(c, Switch, false, ActionNone, FinalNone), w) == LegacySwitch(c, w)
  {
    var o := Opts(c, Switch, false, ActionNone, FinalNone);
    LegacyScanAlike(c, Select, w.enumeration, 0);
    var scan := ScanFrom(c, false, Select, w.enumeration, 0);
    assert ModeFor(o, Width(w)) == Select;
    assert "" + Render(scan.out) == "";
    assert "can't " + "set front" + " process" == "can't set front process";
    if scan.stop.FoundAt? {
      var k := scan.stop.index;
      var m := Matched(w.enumeration.slots[k].psn, Some(w.enumeration.slots[k].reply.info));
      assert Actions(o, m, w) == Primary(o, m, w);
    }
  }

  /** Both versions reject the same command lines of criterion options, and
      neither makes a request or prints anything when it does. */
  lemma VersionsRejectAlike(cl: CommandLine, w: World)
    requires forall k :: 0 <= k < |cl.items| ==> KindOf(cl.items[k].ch) == CriterionOption
    requires LegacyParse(cl).Fail?
    ensures Run(cl, w).exit.Failed? && LegacyRun(cl, w).exit.Failed?
    ensures Run(cl, w).trace == [] && LegacyRun(cl, w).trace == []
    ensures Run(cl, w).out == "" && LegacyRun(cl, w).out == ""
    ensures LegacyRun(cl, w).exit.failure != ErrExit(LegacyChooseOne) ==> Run(cl, w) == LegacyRun(cl, w)
  {
    LegacyAgreesOnCriteria(cl);
  }
}
