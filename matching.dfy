/** `matchApplication` of appswitch 1.0 and the match loop of 1.0d1's
    `main`: walking the process enumeration, applying the criterion to each
    process, stopping at the first match or, when listing, printing a row for
    every match. */
module Matching {
  import opened Text
  import opened Status
  import opened Args
  import opened Records
  import opened Listing

  /** Why the loop stops with a failure. */
  datatype Trouble =
    | InfoUnreadable(psn: Psn, status: int)           // CPSGetProcessInfo failed
    | NoBundleLocation(psn: Psn, info: ProcessInfo)   // no URL can be made from the path
    | BadMatchType(legacy: bool)                      // the switch's default case
    | NextFailed(status: int)                         // CPSGetNextProcess ended other than with procNotFound

  /** What the criterion says about one process. */
  datatype Verdict = Accept | Skip | Fatal(trouble: Trouble)

  const InvalidMatchType := "internal error: invalid match type"
  const LegacyUnknownMatchType := "unknown match type"
  const NoMatchingProcess := "can't find matching process"

  function PsnText(psn: Psn): string {
    Decimal(psn.hi) + "." + Decimal(psn.lo)
  }

  /** The failure when no URL can be made from a process's path. */
  function BundleLocationError(psn: Psn, info: ProcessInfo): Failure {
    ErrExit("can't get bundle location for process '" + info.name + "' (PSN " + PsnText(psn)
            + ", pid " + Decimal(info.pid) + ")")
  }

  function InfoError(psn: Psn, status: int): Failure {
    StatusExit(status, "can't get information for process PSN " + PsnText(psn))
  }

  /** How the program reports each trouble: `osstatusexit` for a failed
      call, `errexit` otherwise. */
  function Report(t: Trouble): Failure {
    match t
    case InfoUnreadable(psn, status) => InfoError(psn, status)
    case NoBundleLocation(psn, info) => BundleLocationError(psn, info)
    case BadMatchType(legacy) => ErrExit(if legacy then LegacyUnknownMatchType else InvalidMatchType)
    case NextFailed(status) => StatusExit(status, "can't get next process")
  }

  /** The `switch (OPTS.matchType)` of 1.0 on one process: exact equality of
      creator, name, pid or path; for a bundle identifier, a path that gives
      no URL is fatal, a missing bundle or identifier skips the process, and
      identifiers are compared ignoring case. */
  function Examine(c: Criterion, psn: Psn, info: ProcessInfo): Verdict {
    match c
    case All => Accept
    case Creator(t) => if info.creator == t then Accept else Skip
    case Name(n) => if info.name == n then Accept else Skip
    case Pid(p) => if info.pid == p then Accept else Skip
    case Path(p) => if info.path == p then Accept else Skip
    case BundleId(b) =>
      (match info.bundle
       case NoUrl => Fatal(NoBundleLocation(psn, info))
       case Resolved(None) => Skip
       case Resolved(Some(id)) => if SameIgnoringCase(b, id) then Accept else Skip)
    case _ => Fatal(BadMatchType(false))
  }

  /** The same switch in 1.0d1, which has no FRONT or ALL and accepts every
      process for an unset criterion. */
  function LegacyExamine(c: Criterion, psn: Psn, info: ProcessInfo): Verdict {
    match c
    case Unknown => Accept
    case Front => Fatal(BadMatchType(true))
    case All => Fatal(BadMatchType(true))
    case _ => Examine(c, psn, info)
  }

  function Judge(legacy: bool, c: Criterion, psn: Psn, info: ProcessInfo): Verdict {
    if legacy then LegacyExamine(c, psn, info) else Examine(c, psn, info)
  }

  /** The two versions judge every process alike for the criteria both have. */
  lemma LegacyJudgesAlike(c: Criterion, psn: Psn, info: ProcessInfo)
    requires !c.Unknown? && !c.Front? && !c.All?
    ensures LegacyExamine(c, psn, info) == Examine(c, psn, info)
    ensures c.BundleId? && info.bundle.NoUrl? ==> Examine(c, psn, info) == Fatal(NoBundleLocation(psn, info))
    ensures c.BundleId? && info.bundle == Resolved(None) ==> Examine(c, psn, info) == Skip
    ensures c.BundleId? && info.bundle.Resolved? && info.bundle.id.Some? ==>
      (Examine(c, psn, info) == Accept <==> FoldCase(c.bundleId) == FoldCase(info.bundle.id.value))
    ensures c.Creator? ==> (Examine(c, psn, info) == Accept <==> info.creator == c.creator)
    ensures c.Name? ==> (Examine(c, psn, info) == Accept <==> info.name == c.name)
    ensures c.Pid? ==> (Examine(c, psn, info) == Accept <==> info.pid == c.pid)
    ensures c.Path? ==> (Examine(c, psn, info) == Accept <==> info.path == c.path)
    ensures !c.BundleId? ==> !Examine(c, psn, info).Fatal?
  {
  }

  // ---------------------------------------------------------------------
  // The enumeration loop
  // ---------------------------------------------------------------------

  /** Stop at the first match, or print a row for each match and go on. */
  datatype Mode = Select | ListMode(layout: Layout)

  datatype Stop = FoundAt(index: nat) | EndReached | Stopped(trouble: Trouble)

  /** A row the loop printed: complete, or cut short before the bundle
      identifier and the newline because no bundle location could be made. */
  datatype Printed =
    | Full(layout: Layout, psn: Psn, info: ProcessInfo)
    | Partial(layout: Layout, psn: Psn, info: ProcessInfo)

  /** The rows the loop printed on standard output and how it ended. */
  datatype Scan = Scan(out: seq<Printed>, stop: Stop)

  /** In -L mode, the bundle identifier in parentheses after the path. */
  function BundleSuffix(l: Layout, info: ProcessInfo): string {
    if l.LongLayout? && info.bundle.Resolved? && info.bundle.id.Some? then " (" + info.bundle.id.value + ")"
    else ""
  }

  /** The text of one printed row. */
  function LineText(p: Printed): string {
    match p
    case Full(l, psn, info) => RowText(l, psn, info) + BundleSuffix(l, info) + "\n"
    case Partial(l, psn, info) => RowText(l, psn, info)
  }

  /** The text of the rows, in order. */
  function Render(ps: seq<Printed>): string
    decreases |ps|
  {
    if |ps| == 0 then "" else Render(ps[..|ps| - 1]) + LineText(ps[|ps| - 1])
  }

  /** Every complete row ends its line; a partial row is the row's fields
      and path alone. */
  lemma LineTextShape(p: Printed)
    ensures p.Full? ==> |LineText(p)| > 0 && LineText(p)[|LineText(p)| - 1] == '\n'
    ensures p.Partial? ==> LineText(p) == RowText(p.layout, p.psn, p.info)
    ensures p.Full? && !p.layout.LongLayout? ==> LineText(p) == RowText(p.layout, p.psn, p.info) + "\n"
  {
  }

  /** What one turn of the loop does with a process: print something and
      go on, stop at it, or print something and fail. */
  datatype Turn = Next(printed: seq<Printed>) | Found | Halt(printed: seq<Printed>, trouble: Trouble)

  /** One turn of the loop: read the information record, judge the
      process, and in list mode print its row. */
  function Visit(c: Criterion, legacy: bool, mode: Mode, slot: Slot): (r: Turn)
    ensures r.Found? ==> mode.Select? && slot.reply.InfoOk?
    ensures mode.Select? && !r.Found? ==> r.printed == []
  {
    match slot.reply
    case InfoFailed(st) => Halt([], InfoUnreadable(slot.psn, st))
    case InfoOk(info) =>
      match Judge(legacy, c, slot.psn, info)
      case Fatal(f) => Halt([], f)
      case Skip => Next([])
      case Accept =>
        match mode
        case Select => Found
        case ListMode(l) =>
          if l.LongLayout? && info.bundle.NoUrl? then
            Halt([Partial(l, slot.psn, info)], NoBundleLocation(slot.psn, info))
          else Next([Full(l, slot.psn, info)])
  }

  /** The loop from the `i`-th process on. */
  function ScanFrom(c: Criterion, legacy: bool, mode: Mode, e: Enumeration, i: nat): (r: Scan)
    requires i <= |e.slots|
    ensures r.stop.FoundAt? ==> mode.Select? && i <= r.stop.index < |e.slots|
    ensures r.stop.FoundAt? ==> e.slots[r.stop.index].reply.InfoOk?
    ensures mode.Select? ==> r.out == []
    decreases |e.slots| - i
  {
    if i == |e.slots| then
      if e.endStatus == ProcNotFound then Scan([], EndReached)
      else Scan([], Stopped(NextFailed(e.endStatus)))
    else
      match Visit(c, legacy, mode, e.slots[i])
      case Next(printed) =>
        var rest := ScanFrom(c, legacy, mode, e, i + 1);
        Scan(printed + rest.out, rest.stop)
      case Found => Scan([], FoundAt(i))
      case Halt(printed, f) => Scan(printed, Stopped(f))
  }

  /** The `j`-th process was read and does not match. */
  predicate Passes(c: Criterion, legacy: bool, e: Enumeration, j: nat)
    requires j < |e.slots|
  {
    e.slots[j].reply.InfoOk? && Judge(legacy, c, e.slots[j].psn, e.slots[j].reply.info) == Skip
  }

  /** The `j`-th process was read and matches. */
  predicate Accepts(c: Criterion, legacy: bool, e: Enumeration, j: nat)
    requires j < |e.slots|
  {
    e.slots[j].reply.InfoOk? && Judge(legacy, c, e.slots[j].psn, e.slots[j].reply.info) == Accept
  }

  /** A process that was read and does not match leaves the outcome to
      the processes after it. */
  lemma ScanPasses(c: Criterion, legacy: bool, mode: Mode, e: Enumeration, i: nat)
    requires i < |e.slots| && Passes(c, legacy, e, i)
    ensures ScanFrom(c, legacy, mode, e, i) == ScanFrom(c, legacy, mode, e, i + 1)
  {
    assert Visit(c, legacy, mode, e.slots[i]) == Next([]);
    assert [] + ScanFrom(c, legacy, mode, e, i + 1).out == ScanFrom(c, legacy, mode, e, i + 1).out;
  }

  /** In selection, a process that was read and matches ends the loop there. */
  lemma ScanAccepts(c: Criterion, legacy: bool, e: Enumeration, i: nat)
    requires i < |e.slots| && Accepts(c, legacy, e, i)
    ensures ScanFrom(c, legacy, Select, e, i) == Scan([], FoundAt(i))
  {
    assert Visit(c, legacy, Select, e.slots[i]) == Found;
  }

  /** In selection, the loop gets past a process to the end only when the
      process was read and does not match. */
  lemma EndOnlyPastSkipped(c: Criterion, legacy: bool, e: Enumeration, i: nat)
    requires i < |e.slots|
    ensures ScanFrom(c, legacy, Select, e, i).stop == EndReached ==> Passes(c, legacy, e, i)
  {
  }

  /** A process that neither passes nor matches ends the loop with a
      failure: its information call failed or its verdict is fatal. */
  lemma ScanHalts(c: Criterion, legacy: bool, mode: Mode, e: Enumeration, i: nat)
    requires i < |e.slots| && !Passes(c, legacy, e, i) && !Accepts(c, legacy, e, i)
    ensures ScanFrom(c, legacy, mode, e, i).stop.Stopped?
    ensures e.slots[i].reply.InfoFailed? ==>
      ScanFrom(c, legacy, mode, e, i) == Scan([], Stopped(InfoUnreadable(e.slots[i].psn, e.slots[i].reply.status)))
  {
    assert Visit(c, legacy, mode, e.slots[i]).Halt?;
  }

  /** First match wins: the selection stops at process `k` exactly when `k`
      matches and every process before it was read and did not match. */
  lemma {:induction false} FirstMatchWins(c: Criterion, legacy: bool, e: Enumeration, i: nat, k: nat)
    requires i <= |e.slots|
    ensures ScanFrom(c, legacy, Select, e, i).stop == FoundAt(k) <==>
      i <= k < |e.slots| && Accepts(c, legacy, e, k) && forall j :: i <= j < k ==> Passes(c, legacy, e, j)
    decreases |e.slots| - i
  {
    if i < |e.slots| {
      FirstMatchWins(c, legacy, e, i + 1, k);
      if Passes(c, legacy, e, i) {
        ScanPasses(c, legacy, Select, e, i);
        if k < |e.slots| {
          assert k > i ==> ((forall j :: i <= j < k ==> Passes(c, legacy, e, j))
                           <==> (forall j :: i + 1 <= j < k ==> Passes(c, legacy, e, j)));
        }
      } else if Accepts(c, legacy, e, i) {
        ScanAccepts(c, legacy, e, i);
      } else {
        ScanHalts(c, legacy, Select, e, i);
      }
    }
  }

  /** The selection runs off the end exactly when no process matches and
      nothing fails; it is then "no matching process" when the enumeration
      ended with procNotFound and fatal otherwise. */
  lemma {:induction false} NoMatchReachesEnd(c: Criterion, legacy: bool, mode: Mode, e: Enumeration, i: nat)
    requires i <= |e.slots|
    requires forall j :: i <= j < |e.slots| ==> Passes(c, legacy, e, j)
    ensures ScanFrom(c, legacy, mode, e, i).stop ==
      if e.endStatus == ProcNotFound then EndReached
      else Stopped(NextFailed(e.endStatus))
    decreases |e.slots| - i
  {
    if i < |e.slots| {
      ScanPasses(c, legacy, mode, e, i);
      NoMatchReachesEnd(c, legacy, mode, e, i + 1);
    }
  }

  /** Conversely, the end is reached only when every process was read and
      none matched. */
  lemma {:induction false} EndMeansNoMatch(c: Criterion, legacy: bool, e: Enumeration, i: nat)
    requires i <= |e.slots|
    requires ScanFrom(c, legacy, Select, e, i).stop == EndReached
    ensures e.endStatus == ProcNotFound
    ensures forall j :: i <= j < |e.slots| ==> Passes(c, legacy, e, j)
    decreases |e.slots| - i
  {
    if i < |e.slots| {
      EndOnlyPastSkipped(c, legacy, e, i);
      ScanPasses(c, legacy, Select, e, i);
      EndMeansNoMatch(c, legacy, e, i + 1);
    }
  }

  /** A failed information call ends the loop with its status, whatever the
      mode, once every process before it was read and did not match. */
  lemma {:induction false} InfoFailureIsFatal(c: Criterion, legacy: bool, mode: Mode, e: Enumeration, i: nat, k: nat)
    requires i <= k < |e.slots| && e.slots[k].reply.InfoFailed?
    requires forall j :: i <= j < k ==> Passes(c, legacy, e, j)
    ensures ScanFrom(c, legacy, mode, e, i).stop == Stopped(InfoUnreadable(e.slots[k].psn, e.slots[k].reply.status))
    decreases k - i
  {
    var f := InfoUnreadable(e.slots[k].psn, e.slots[k].reply.status);
    if i < k {
      assert Passes(c, legacy, e, i);
      ScanPasses(c, legacy, mode, e, i);
      InfoFailureIsFatal(c, legacy, mode, e, i + 1, k);
      assert ScanFrom(c, legacy, mode, e, i + 1).stop == Stopped(f);
    } else {
      assert !Passes(c, legacy, e, i) && !Accepts(c, legacy, e, i);
      ScanHalts(c, legacy, mode, e, i);
      assert ScanFrom(c, legacy, mode, e, i) == Scan([], Stopped(f));
    }
  }

  /** The two versions' loops agree for the criteria both have. */
  lemma {:induction false} LegacyScanAlike(c: Criterion, mode: Mode, e: Enumeration, i: nat)
    requires !c.Unknown? && !c.Front? && !c.All?
    requires i <= |e.slots|
    ensures ScanFrom(c, true, mode, e, i) == ScanFrom(c, false, mode, e, i)
    decreases |e.slots| - i
  {
    if i < |e.slots| {
      LegacyScanAlike(c, mode, e, i + 1);
      if e.slots[i].reply.InfoOk? {
        LegacyJudgesAlike(c, e.slots[i].psn, e.slots[i].reply.info);
      }
    }
  }

  // ---------------------------------------------------------------------
  // The listing, stated without the loop
  // ---------------------------------------------------------------------

  /** Every process from the `i`-th on can be listed or skipped: it was
      read, its verdict is not fatal, and in -L mode a matching one has a
      bundle location. */
  predicate Listable(c: Criterion, legacy: bool, l: Layout, e: Enumeration, i: nat) {
    forall j :: i <= j < |e.slots| ==> Listed(c, legacy, l, e.slots[j])
  }

  predicate Listed(c: Criterion, legacy: bool, l: Layout, slot: Slot) {
    && slot.reply.InfoOk?
    && !Judge(legacy, c, slot.psn, slot.reply.info).Fatal?
    && (l.LongLayout? && Judge(legacy, c, slot.psn, slot.reply.info) == Accept ==> !slot.reply.info.bundle.NoUrl?)
  }

  /** The rows of the matching processes from the `i`-th on, in
      enumeration order. */
  function Rows(c: Criterion, legacy: bool, l: Layout, e: Enumeration, i: nat): seq<Printed>
    requires i <= |e.slots| && Listable(c, legacy, l, e, i)
    decreases |e.slots| - i
  {
    if i == |e.slots| then []
    else
      var slot := e.slots[i];
      (if Judge(legacy, c, slot.psn, slot.reply.info) == Accept then [Full(l, slot.psn, slot.reply.info)] else [])
      + Rows(c, legacy, l, e, i + 1)
  }

  /** In list mode the loop prints exactly one line per matching process,
      in order, and always runs to the end of the enumeration. */
  lemma {:induction false} ListingPrintsEveryMatch(c: Criterion, legacy: bool, l: Layout, e: Enumeration, i: nat)
    requires i <= |e.slots| && Listable(c, legacy, l, e, i)
    ensures ScanFrom(c, legacy, ListMode(l), e, i).out == Rows(c, legacy, l, e, i)
    ensures ScanFrom(c, legacy, ListMode(l), e, i).stop ==
      if e.endStatus == ProcNotFound then EndReached
      else Stopped(NextFailed(e.endStatus))
    decreases |e.slots| - i
  {
    if i < |e.slots| {
      assert e.slots[i].reply.InfoOk?;
      ListingPrintsEveryMatch(c, legacy, l, e, i + 1);
    }
  }

  // ---------------------------------------------------------------------
  // matchApplication
  // ---------------------------------------------------------------------

  /** The process `matchApplication` returns, with the information record
      read for it (none when it comes from `CPSGetFrontProcess`). */
  datatype Matched = Matched(psn: Psn, info: Option<ProcessInfo>)

  /** `frontApplication()`. */
  function FrontApplication(front: FrontReply): Result<Psn> {
    match front
    case FrontIs(psn) => Ok(psn)
    case FrontFailed(st) => Fail(StatusExit(st, "can't get frontmost process"))
  }

  function ModeFor(o: Opts, termwidth: int): Mode {
    if o.appAction == List then ListMode(ChooseLayout(o.longList, termwidth)) else Select
  }

  /** What `matchApplication` prints and returns: the front process for
      FRONT; in list mode the header and the rows, then the front process;
      otherwise the first match. */
  function MatchSpec(o: Opts, termwidth: int, e: Enumeration, front: FrontReply): (string, Result<Matched>) {
    if o.matchType == Front then
      ("", match FrontApplication(front)
           case Ok(psn) => Ok(Matched(psn, None))
           case Fail(f) => Fail(f))
    else
      var mode := ModeFor(o, termwidth);
      var scan := ScanFrom(o.matchType, false, mode, e, 0);
      var header := if mode.ListMode? then Header(mode.layout) else "";
      (header + Render(scan.out),
       match scan.stop
       case FoundAt(k) => Ok(Matched(e.slots[k].psn, Some(e.slots[k].reply.info)))
       case Stopped(t) => Fail(Report(t))
       case EndReached =>
         if mode.ListMode? then
           (match FrontApplication(front)
            case Ok(psn) => Ok(Matched(psn, None))
            case Fail(f) => Fail(f))
         else Fail(ErrExit(NoMatchingProcess)))
  }

  /** The rows already printed, followed by the rest of the loop. */
  function Resume(rows: seq<Printed>, rest: Scan): Scan {
    Scan(rows + rest.out, rest.stop)
  }

  /** One turn of the loop, as `ScanFrom` sees it. */
  lemma Advance(c: Criterion, legacy: bool, mode: Mode, e: Enumeration, i: nat, rows: seq<Printed>, step: Turn)
    requires i < |e.slots| && step == Visit(c, legacy, mode, e.slots[i])
    ensures step.Next? ==>
      Resume(rows, ScanFrom(c, legacy, mode, e, i)) == Resume(rows + step.printed, ScanFrom(c, legacy, mode, e, i + 1))
    ensures step.Found? ==> Resume(rows, ScanFrom(c, legacy, mode, e, i)) == Scan(rows, FoundAt(i))
    ensures step.Halt? ==> Resume(rows, ScanFrom(c, legacy, mode, e, i)) == Scan(rows + step.printed, Stopped(step.trouble))
  {
    var rest := ScanFrom(c, legacy, mode, e, i + 1);
    if step.Next? {
      assert rows + (step.printed + rest.out) == (rows + step.printed) + rest.out;
    } else if step.Found? {
      assert rows + [] == rows;
    }
  }

  /** The `while (CPSGetNextProcess(&psn) == noErr)` loop with its
      `continue`s and early exits: the rows it prints and how it ends. */
  method EnumerateMatches(c: Criterion, legacy: bool, mode: Mode, e: Enumeration)
    returns (rows: seq<Printed>, stop: Stop)
    ensures Scan(rows, stop) == ScanFrom(c, legacy, mode, e, 0)
  {
    rows := [];
    var i := 0;
    assert Resume(rows, ScanFrom(c, legacy, mode, e, 0)) == ScanFrom(c, legacy, mode, e, 0);
    while i < |e.slots|
      invariant 0 <= i <= |e.slots|
      invariant Resume(rows, ScanFrom(c, legacy, mode, e, i)) == ScanFrom(c, legacy, mode, e, 0)
      decreases |e.slots| - i
    {
      var step := Visit(c, legacy, mode, e.slots[i]);
      Advance(c, legacy, mode, e, i, rows, step);
      match step {
        case Found =>
          stop := FoundAt(i);
          return;
        case Halt(printed, t) =>
          rows := rows + printed;
          stop := Stopped(t);
          return;
        case Next(printed) =>
          rows := rows + printed;
          i := i + 1;
      }
    }
    stop := if e.endStatus != ProcNotFound then Stopped(NextFailed(e.endStatus)) else EndReached;
    assert rows + [] == rows;
  }

  /** `matchApplication`. */
  method MatchApplication(o: Opts, termwidth: int, e: Enumeration, front: FrontReply)
    returns (out: string, r: Result<Matched>)
    ensures (out, r) == MatchSpec(o, termwidth, e, front)
  {
    out := "";
    if o.matchType == Front {
      match front {
        case FrontIs(psn) => r := Ok(Matched(psn, None));
        case FrontFailed(st) => r := Fail(StatusExit(st, "can't get frontmost process"));
      }
      return;
    }
    var mode := ModeFor(o, termwidth);
    if mode.ListMode? {
      out := Header(mode.layout);
    }
    var rows, stop := EnumerateMatches(o.matchType, false, mode, e);
    out := out + Render(rows);
    match stop {
      case FoundAt(k) =>
        r := Ok(Matched(e.slots[k].psn, Some(e.slots[k].reply.info)));
      case Stopped(t) =>
        r := Fail(Report(t));
      case EndReached =>
        if mode.ListMode? {
          match front {
            case FrontIs(psn) => r := Ok(Matched(psn, None));
            case FrontFailed(st) => r := Fail(StatusExit(st, "can't get frontmost process"));
          }
        } else {
          r := Fail(ErrExit(NoMatchingProcess));
        }
    }
  }

  /** Outside list mode, `matchApplication` prints nothing and returns the
      first matching process with its information record; when no process
      matches and the enumeration ends normally, it fails with "can't find
      matching process". */
  lemma SelectReturnsFirstMatch(o: Opts, termwidth: int, e: Enumeration, front: FrontReply, k: nat)
    requires o.matchType != Front && o.appAction != List
    requires k < |e.slots| && Accepts(o.matchType, false, e, k)
    requires forall j :: 0 <= j < k ==> Passes(o.matchType, false, e, j)
    ensures MatchSpec(o, termwidth, e, front) == ("", Ok(Matched(e.slots[k].psn, Some(e.slots[k].reply.info))))
  {
    FirstMatchWins(o.matchType, false, e, 0, k);
    var scan := ScanFrom(o.matchType, false, Select, e, 0);
    assert ModeFor(o, termwidth) == Select;
    assert scan.stop == FoundAt(k) && scan.out == [];
    assert "" + Render(scan.out) == "";
  }

  lemma SelectWithoutMatch(o: Opts, termwidth: int, e: Enumeration, front: FrontReply)
    requires o.matchType != Front && o.appAction != List
    requires forall j :: 0 <= j < |e.slots| ==> Passes(o.matchType, false, e, j)
    ensures MatchSpec(o, termwidth, e, front).1 ==
      if e.endStatus == ProcNotFound then Fail(ErrExit(NoMatchingProcess))
      else Fail(StatusExit(e.endStatus, "can't get next process"))
  {
    NoMatchReachesEnd(o.matchType, false, Select, e, 0);
  }

  /** In list mode, when every process can be listed, `matchApplication`
      prints the header and one row per matching process, then returns the
      frontmost process (or fails as the enumeration's end status says). */
  lemma ListModeOutput(o: Opts, termwidth: int, e: Enumeration, front: FrontReply)
    requires o.matchType != Front && o.appAction == List
    requires Listable(o.matchType, false, ChooseLayout(o.longList, termwidth), e, 0)
    ensures var l := ChooseLayout(o.longList, termwidth);
      MatchSpec(o, termwidth, e, front).0 == Header(l) + Render(Rows(o.matchType, false, l, e, 0))
    ensures MatchSpec(o, termwidth, e, front).1 ==
      if e.endStatus != ProcNotFound then Fail(StatusExit(e.endStatus, "can't get next process"))
      else match FrontApplication(front)
           case Ok(psn) => Ok(Matched(psn, None))
           case Fail(f) => Fail(f)
  {
    var l := ChooseLayout(o.longList, termwidth);
    assert ModeFor(o, termwidth) == ListMode(l);
    ListingPrintsEveryMatch(o.matchType, false, l, e, 0);
    var scan := ScanFrom(o.matchType, false, ListMode(l), e, 0);
    if e.endStatus != ProcNotFound {
      assert scan.stop == Stopped(NextFailed(e.endStatus));
    } else {
      assert scan.stop == EndReached;
    }
  }
}
