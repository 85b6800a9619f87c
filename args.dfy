/** `getargs`: the request record `OPTS` built from the command line, in
    appswitch 1.0 (appswitch/main.c) and in the older 1.0d1 (main.c).
    `getopt` itself is not modelled: a command line is the sequence of option
    characters it returns, with their arguments, and the operands left after
    the last option. */
module Args {
  import opened Text
  import opened Status

  /** A four-character code in memory order (big-endian, as on PowerPC). */
  type OSType = t: string | |t| == 4 witness "????"

  datatype Criterion =
    | Unknown | Front | Creator(creator: OSType) | BundleId(bundleId: string)
    | Name(name: string) | Pid(pid: int) | Path(path: string) | All

  datatype AppAction = AppNone | Switch | Show | Hide | Quit | Kill | KillHard | List | PrintPid

  datatype GlobalAction = ActionNone | ShowAll | HideOthers

  datatype FinalAction = FinalNone | FinalSwitch

  /** The `OPTS` record of appswitch 1.0. */
  datatype Opts = Opts(matchType: Criterion, appAction: AppAction, longList: bool,
                       action: GlobalAction, finalAction: FinalAction)

  const InitialOpts := Opts(Unknown, AppNone, false, ActionNone, FinalNone)

  /** One value returned by `getopt` with its `optarg`; `'?'` stands for an
      unknown option or a missing argument. */
  datatype GetoptItem = GetoptItem(ch: char, optarg: string)

  /** `argc`, the options in the order `getopt` returns them, and the
      operands from `optind` on. */
  datatype CommandLine = CommandLine(argc: int, items: seq<GetoptItem>, operands: seq<string>)

  /** Which field of `OPTS` an option letter sets: the criterion (-p, -c,
      -i, -a), the primary action (-s, -h, -q, -k, -K, -l, -L, -P), the
      global action (-S, -H) or the final action (-F). */
  datatype Kind = CriterionOption | ActionOption | GlobalOption | FinalOption | Unrecognised

  function KindOf(ch: char): Kind {
    match ch
    case 'p' | 'c' | 'i' | 'a' => CriterionOption
    case 's' | 'h' | 'q' | 'k' | 'K' | 'l' | 'L' | 'P' => ActionOption
    case 'S' | 'H' => GlobalOption
    case 'F' => FinalOption
    case _ => Unrecognised
  }

  const ChooseCriterion := "choose only one of -c, -i, -p, -a options"
  const ChooseAction := "choose only one of -s, -h, -q, -k, -K, -l, -L, -P options"
  /** The message of the -P branch leaves -L out. */
  const ChooseActionAfterP := "choose only one of -s, -h, -q, -k, -K, -l, -P options"
  const ChooseGlobal := "choose -S, -H or neither option"
  const ChooseFinal := "choose only one -F option"
  const InvalidPid := "invalid process identifier (argument of -p)"
  const CreatorLength := "creator (argument of -c) must be four characters long"

  /** `sscanf(optarg, "%d", &pid) == 1 && pid >= 0`, with the 32-bit
      `pid_t` the value is stored in. */
  predicate ValidPid(arg: string) {
    ScanInt32(arg).Some? && ScanInt32(arg).value >= 0
  }

  // ---------------------------------------------------------------------
  // appswitch 1.0: the option loop
  // ---------------------------------------------------------------------

  function ActionOf(ch: char): AppAction
    requires KindOf(ch) == ActionOption
  {
    match ch
    case 's' => Show
    case 'h' => Hide
    case 'q' => Quit
    case 'k' => Kill
    case 'K' => KillHard
    case 'P' => PrintPid
    case _ => List
  }

  function GlobalOf(ch: char): GlobalAction
    requires KindOf(ch) == GlobalOption
  {
    if ch == 'S' then ShowAll else HideOthers
  }

  /** The criterion a -p, -c, -i or -a option selects, or why its argument
      is refused: -p takes an integer >= 0 as `sscanf("%d")` reads it, -c
      exactly four characters, stored as the creator tag. */
  function ReadCriterion(it: GetoptItem): Result<Criterion>
    requires KindOf(it.ch) == CriterionOption
  {
    if it.ch == 'p' then
      if ValidPid(it.optarg) then Ok(Pid(ScanInt32(it.optarg).value)) else Fail(ErrExit(InvalidPid))
    else if it.ch == 'c' then
      if |it.optarg| == 4 then Ok(Creator(it.optarg)) else Fail(ErrExit(CreatorLength))
    else if it.ch == 'i' then Ok(BundleId(it.optarg))
    else Ok(Name(it.optarg))
  }

  /** One turn of the `switch (ch)` in the option loop. */
  function Step(o: Opts, it: GetoptItem): Result<Opts> {
    match KindOf(it.ch)
    case CriterionOption =>
      if o.matchType != Unknown then Fail(ErrExit(ChooseCriterion))
      else (match ReadCriterion(it)
            case Fail(f) => Fail(f)
            case Ok(c) => Ok(o.(matchType := c)))
    case ActionOption =>
      if o.appAction != AppNone then
        Fail(ErrExit(if it.ch == 'P' then ChooseActionAfterP else ChooseAction))
      else Ok(o.(appAction := ActionOf(it.ch), longList := o.longList || it.ch == 'L'))
    case GlobalOption =>
      if o.action != ActionNone then Fail(ErrExit(ChooseGlobal))
      else Ok(o.(action := GlobalOf(it.ch)))
    case FinalOption =>
      if o.finalAction != FinalNone then Fail(ErrExit(ChooseFinal))
      else Ok(o.(finalAction := FinalSwitch))
    case Unrecognised => Fail(Usage)
  }

  /** The option loop over the first `|items|` options: the first failing
      option ends it. */
  function Fold(items: seq<GetoptItem>): Result<Opts> {
    if |items| == 0 then Ok(InitialOpts)
    else match Fold(items[..|items| - 1])
      case Fail(f) => Fail(f)
      case Ok(o) => Step(o, items[|items| - 1])
  }

  /** The operand rules that follow the option loop. */
  function Resolve(o: Opts, operands: seq<string>): (r: Result<Opts>)
    ensures o.matchType != Unknown && |operands| != 0 ==> r == Fail(Usage)
    ensures o.matchType != Unknown && |operands| == 0 ==> r.Ok? && r.value.matchType == o.matchType
    ensures o.matchType == Unknown && |operands| == 1 ==> r.Ok? && r.value.matchType == Path(operands[0])
    ensures o.matchType == Unknown && |operands| > 1 ==> r == Fail(Usage)
    ensures o.matchType == Unknown && |operands| == 0 ==>
      (r.Ok? <==> o.appAction == List || o.action != ActionNone || o.finalAction != FinalNone)
      && (r.Ok? ==> r.value.matchType == if o.appAction == List then All else Front)
    ensures r.Ok? ==> r.value.matchType != Unknown
    ensures r.Ok? ==> (r.value.appAction ==
      if o.appAction == AppNone && r.value.matchType != Front then Switch else o.appAction)
    ensures r.Ok? ==> r.value.longList == o.longList && r.value.action == o.action
                      && r.value.finalAction == o.finalAction
  {
    var resolved: Result<Criterion> :=
      if o.matchType != Unknown then
        if |operands| != 0 then Fail(Usage) else Ok(o.matchType)
      else if |operands| == 0 then
        if o.appAction == List then Ok(All)
        else if o.action != ActionNone || o.finalAction != FinalNone then Ok(Front)
        else Fail(Usage)
      else if |operands| == 1 then Ok(Path(operands[0]))
      else Fail(Usage);
    match resolved
    case Fail(f) => Fail(f)
    case Ok(c) =>
      Ok(o.(matchType := c,
            appAction := if c != Front && o.appAction == AppNone then Switch else o.appAction))
  }

  /** `getargs` of appswitch 1.0, as a function of the command line. */
  function Parse(cl: CommandLine): Result<Opts> {
    if cl.argc == 1 then Fail(Usage)
    else match Fold(cl.items)
      case Fail(f) => Fail(f)
      case Ok(o) => Resolve(o, cl.operands)
  }

  /** A failure in the option loop is final. */
  lemma {:induction false} FoldFailureIsFinal(items: seq<GetoptItem>, k: nat)
    requires k <= |items| && Fold(items[..k]).Fail?
    ensures Fold(items) == Fold(items[..k])
    decreases |items| - k
  {
    if k < |items| {
      assert items[..|items| - 1][..k] == items[..k];
      FoldFailureIsFinal(items[..|items| - 1], k);
    } else {
      assert items[..k] == items;
    }
  }

  /** `getargs` of appswitch 1.0: the `while (getopt ...)` loop updating
      `OPTS` field by field, then the operand rules. */
  method GetArgs(cl: CommandLine) returns (r: Result<Opts>)
    ensures r == Parse(cl)
  {
    if cl.argc == 1 {
      return Fail(Usage);
    }
    var opts := InitialOpts;
    var i := 0;
    while i < |cl.items|
      invariant 0 <= i <= |cl.items|
      invariant Fold(cl.items[..i]) == Ok(opts)
    {
      var ch, optarg := cl.items[i].ch, cl.items[i].optarg;
      var failure: Option<Failure> := None;
      ghost var before := opts;
      match KindOf(ch) {
        case CriterionOption =>
          if opts.matchType != Unknown {
            failure := Some(ErrExit(ChooseCriterion));
          } else if ch == 'p' {
            var n := ScanInt32(optarg);
            if n.None? || n.value < 0 {
              failure := Some(ErrExit(InvalidPid));
            } else {
              opts := opts.(matchType := Pid(n.value));
            }
          } else if ch == 'c' {
            if |optarg| != 4 {
              failure := Some(ErrExit(CreatorLength));
            } else {
              opts := opts.(matchType := Creator(optarg));
            }
          } else if ch == 'i' {
            opts := opts.(matchType := BundleId(optarg));
          } else {
            opts := opts.(matchType := Name(optarg));
          }
        case ActionOption =>
          if opts.appAction != AppNone {
            failure := Some(ErrExit(if ch == 'P' then ChooseActionAfterP else ChooseAction));
          } else {
            opts := opts.(appAction := ActionOf(ch));
            if ch == 'L' {
              opts := opts.(longList := true);
            }
          }
        case GlobalOption =>
          if opts.action != ActionNone {
            failure := Some(ErrExit(ChooseGlobal));
          } else {
            opts := opts.(action := GlobalOf(ch));
          }
        case FinalOption =>
          if opts.finalAction != FinalNone {
            failure := Some(ErrExit(ChooseFinal));
          } else {
            opts := opts.(finalAction := FinalSwitch);
          }
        case Unrecognised =>
          failure := Some(Usage);
      }
      assert Step(before, cl.items[i]) == if failure.Some? then Fail(failure.value) else Ok(opts);
      assert cl.items[..i + 1][..i] == cl.items[..i];
      if failure.Some? {
        FoldFailureIsFinal(cl.items, i + 1);
        return Fail(failure.value);
      }
      i := i + 1;
    }
    assert cl.items[..i] == cl.items;

    if opts.matchType != Unknown && |cl.operands| != 0 {
      return Fail(Usage);
    }
    if opts.matchType == Unknown {
      if |cl.operands| == 0 {
        if opts.appAction == List {
          opts := opts.(matchType := All);
        } else if opts.action != ActionNone || opts.finalAction != FinalNone {
          opts := opts.(matchType := Front);
        } else {
          return Fail(Usage);
        }
      } else if |cl.operands| == 1 {
        opts := opts.(matchType := Path(cl.operands[0]));
      } else {
        return Fail(Usage);
      }
    }
    if opts.matchType != Front && opts.appAction == AppNone {
      opts := opts.(appAction := Switch);
    }
    r := Ok(opts);
  }

  // ---------------------------------------------------------------------
  // What the option loop accepts, stated without the loop
  // ---------------------------------------------------------------------

  /** How many of the options are of kind `kind`. */
  function Count(items: seq<GetoptItem>, kind: Kind): nat {
    if |items| == 0 then 0
    else Count(items[..|items| - 1], kind) + if KindOf(items[|items| - 1].ch) == kind then 1 else 0
  }

  /** The last option of kind `kind`. */
  function LastOf(items: seq<GetoptItem>, kind: Kind): (r: Option<GetoptItem>)
    ensures r.Some? ==> KindOf(r.value.ch) == kind && r.value in items
  {
    if |items| == 0 then None
    else if KindOf(items[|items| - 1].ch) == kind then Some(items[|items| - 1])
    else LastOf(items[..|items| - 1], kind)
  }

  /** An option the loop accepts on its own: a known letter, a -p argument
      that reads as an integer >= 0, a -c argument of four characters. */
  predicate ItemValid(it: GetoptItem) {
    && KindOf(it.ch) != Unrecognised
    && (it.ch == 'p' ==> ValidPid(it.optarg))
    && (it.ch == 'c' ==> |it.optarg| == 4)
  }

  predicate AllValid(items: seq<GetoptItem>) {
    forall k :: 0 <= k < |items| ==> ItemValid(items[k])
  }

  /** The criterion a criterion option names; only consulted for a valid
      option. */
  function CriterionOf(it: GetoptItem): Criterion
    requires KindOf(it.ch) == CriterionOption
  {
    match ReadCriterion(it)
    case Ok(c) => c
    case Fail(_) => Unknown
  }

  /** Every option valid, and at most one criterion, one primary action, one
      of -S/-H and one -F. */
  predicate Admissible(items: seq<GetoptItem>) {
    && AllValid(items)
    && Count(items, CriterionOption) <= 1
    && Count(items, ActionOption) <= 1
    && Count(items, GlobalOption) <= 1
    && Count(items, FinalOption) <= 1
  }

  /** The request a sequence of valid options describes, field by field: the
      criterion of the criterion option, the action of the action option,
      `longList` when that action option is -L, the -S/-H choice, and -F. */
  function Expected(items: seq<GetoptItem>): Opts
  {
    var c := LastOf(items, CriterionOption);
    var a := LastOf(items, ActionOption);
    var g := LastOf(items, GlobalOption);
    Opts(if c.None? then Unknown else CriterionOf(c.value),
         if a.None? then AppNone else ActionOf(a.value.ch),
         a.Some? && a.value.ch == 'L',
         if g.None? then ActionNone else GlobalOf(g.value.ch),
         if LastOf(items, FinalOption).Some? then FinalSwitch else FinalNone)
  }

  lemma {:induction false} CountNoneLast(items: seq<GetoptItem>, kind: Kind)
    ensures Count(items, kind) == 0 <==> LastOf(items, kind).None?
    decreases |items|
  {
    if |items| > 0 {
      CountNoneLast(items[..|items| - 1], kind);
    }
  }

  lemma {:induction false} CountPositive(items: seq<GetoptItem>, kind: Kind, j: nat)
    requires j < |items| && KindOf(items[j].ch) == kind
    ensures Count(items, kind) >= 1
    decreases |items|
  {
    if j < |items| - 1 {
      CountPositive(items[..|items| - 1], kind, j);
    }
  }

  /** One more option, seen from the reference side: the count and the last
      option of `p + [last]` for one kind. */
  lemma Extend(p: seq<GetoptItem>, last: GetoptItem, kind: Kind)
    ensures Count(p + [last], kind) == Count(p, kind) + if KindOf(last.ch) == kind then 1 else 0
    ensures LastOf(p + [last], kind) == if KindOf(last.ch) == kind then Some(last) else LastOf(p, kind)
    ensures Count(p, kind) == 0 <==> LastOf(p, kind).None?
  {
    assert (p + [last])[..|p|] == p;
    CountNoneLast(p, kind);
  }

  lemma ExtendValid(p: seq<GetoptItem>, last: GetoptItem)
    ensures AllValid(p + [last]) <==> AllValid(p) && ItemValid(last)
  {
    var items := p + [last];
    assert items[|p|] == last;
    assert forall k :: 0 <= k < |p| ==> items[k] == p[k];
  }

  lemma CriterionStep(p: seq<GetoptItem>, last: GetoptItem)
    requires Admissible(p) && KindOf(last.ch) == CriterionOption
    ensures Step(Expected(p), last).Ok? <==> Admissible(p + [last])
    ensures Step(Expected(p), last).Ok? ==> Step(Expected(p), last).value == Expected(p + [last])
  {
    var o := Expected(p);
    ExtendValid(p, last);
    Extend(p, last, CriterionOption);
    if Count(p, CriterionOption) == 0 && ItemValid(last) {
      Extend(p, last, ActionOption);
      Extend(p, last, GlobalOption);
      Extend(p, last, FinalOption);
      assert Step(o, last) == Ok(o.(matchType := CriterionOf(last)));
      assert Expected(p + [last]) == o.(matchType := CriterionOf(last));
    } else {
      assert Step(o, last).Fail?;
    }
  }

  lemma StepOnAction(o: Opts, it: GetoptItem)
    requires KindOf(it.ch) == ActionOption && o.appAction == AppNone
    ensures Step(o, it) == Ok(o.(appAction := ActionOf(it.ch), longList := o.longList || it.ch == 'L'))
  {
    assert KindOf(it.ch) != CriterionOption;
  }

  lemma ActionStep(p: seq<GetoptItem>, last: GetoptItem)
    requires Admissible(p) && KindOf(last.ch) == ActionOption
    ensures Step(Expected(p), last).Ok? <==> Admissible(p + [last])
    ensures Step(Expected(p), last).Ok? ==> Step(Expected(p), last).value == Expected(p + [last])
  {
    var o := Expected(p);
    ExtendValid(p, last);
    Extend(p, last, ActionOption);
    if Count(p, ActionOption) == 0 {
      ExpectedOnAction(p, last);
      StepOnAction(o, last);
      Extend(p, last, CriterionOption);
      Extend(p, last, GlobalOption);
      Extend(p, last, FinalOption);
      assert Admissible(p + [last]);
    } else {
      assert o.appAction != AppNone;
      assert !Admissible(p + [last]);
    }
  }

  lemma ExpectedOnAction(p: seq<GetoptItem>, last: GetoptItem)
    requires KindOf(last.ch) == ActionOption && Count(p, ActionOption) == 0
    ensures Expected(p + [last]) == Expected(p).(appAction := ActionOf(last.ch), longList := last.ch == 'L')
  {
    Extend(p, last, CriterionOption);
    Extend(p, last, ActionOption);
    Extend(p, last, GlobalOption);
    Extend(p, last, FinalOption);
  }

  lemma GlobalStep(p: seq<GetoptItem>, last: GetoptItem)
    requires Admissible(p) && KindOf(last.ch) == GlobalOption
    ensures Step(Expected(p), last).Ok? <==> Admissible(p + [last])
    ensures Step(Expected(p), last).Ok? ==> Step(Expected(p), last).value == Expected(p + [last])
  {
    ExtendValid(p, last);
    Extend(p, last, CriterionOption);
    Extend(p, last, ActionOption);
    Extend(p, last, GlobalOption);
    Extend(p, last, FinalOption);
  }

  lemma FinalStep(p: seq<GetoptItem>, last: GetoptItem)
    requires Admissible(p) && KindOf(last.ch) == FinalOption
    ensures Step(Expected(p), last).Ok? <==> Admissible(p + [last])
    ensures Step(Expected(p), last).Ok? ==> Step(Expected(p), last).value == Expected(p + [last])
  {
    ExtendValid(p, last);
    Extend(p, last, CriterionOption);
    Extend(p, last, ActionOption);
    Extend(p, last, GlobalOption);
    Extend(p, last, FinalOption);
  }

  /** One more option: the loop goes on exactly when the longer sequence is
      still admissible, and then it holds the request that sequence
      describes. */
  lemma SummaryStep(p: seq<GetoptItem>, last: GetoptItem)
    requires Admissible(p)
    ensures Step(Expected(p), last).Ok? <==> Admissible(p + [last])
    ensures Step(Expected(p), last).Ok? ==> Step(Expected(p), last).value == Expected(p + [last])
  {
    if KindOf(last.ch) == CriterionOption {
      CriterionStep(p, last);
    } else if KindOf(last.ch) == ActionOption {
      ActionStep(p, last);
    } else if KindOf(last.ch) == GlobalOption {
      GlobalStep(p, last);
    } else if KindOf(last.ch) == FinalOption {
      FinalStep(p, last);
    } else {
      ExtendValid(p, last);
    }
  }

  /** The option loop accepts exactly the admissible option sequences, and
      the record it builds is the one they describe. */
  lemma {:induction false} FoldCharacterised(items: seq<GetoptItem>)
    ensures Fold(items).Ok? <==> Admissible(items)
    ensures Fold(items).Ok? ==> Fold(items).value == Expected(items)
    decreases |items|
  {
    if |items| > 0 {
      var p, last := items[..|items| - 1], items[|items| - 1];
      assert items == p + [last];
      FoldCharacterised(p);
      ExtendValid(p, last);
      if Fold(p).Ok? {
        SummaryStep(p, last);
      }
    }
  }

  lemma FoldNext(items: seq<GetoptItem>, k: nat)
    requires k < |items| && Fold(items[..k]).Ok?
    ensures Fold(items[..k + 1]) == Step(Fold(items[..k]).value, items[k])
  {
    var q := items[..k + 1];
    assert q[..k] == items[..k];
    assert q[k] == items[k];
  }

  /** Whether the field that options of kind `kind` set is already set. */
  predicate Chosen(o: Opts, kind: Kind) {
    match kind
    case CriterionOption => o.matchType != Unknown
    case ActionOption => o.appAction != AppNone
    case GlobalOption => o.action != ActionNone
    case FinalOption => o.finalAction != FinalNone
    case Unrecognised => false
  }

  lemma ExpectedChosen(items: seq<GetoptItem>, j: nat)
    requires AllValid(items)
    requires j < |items| && KindOf(items[j].ch) != Unrecognised
    ensures Chosen(Expected(items), KindOf(items[j].ch))
  {
    var kind := KindOf(items[j].ch);
    CountPositive(items, kind, j);
    CountNoneLast(items, kind);
    var it := LastOf(items, kind).value;
    var i :| 0 <= i < |items| && items[i] == it;
    assert ItemValid(it);
  }

  lemma PrefixChosen(items: seq<GetoptItem>, j: nat, k: nat)
    requires j < k <= |items| && Fold(items[..k]).Ok?
    requires KindOf(items[j].ch) != Unrecognised
    ensures Chosen(Fold(items[..k]).value, KindOf(items[j].ch))
  {
    var prefix := items[..k];
    FoldCharacterised(prefix);
    assert prefix[j] == items[j];
    ExpectedChosen(prefix, j);
  }

  /** The "choose only one" message for a second option of a kind: one per
      field, the -P branch's own variant for the primary action. */
  function RepeatMessage(ch: char): string
    requires KindOf(ch) != Unrecognised
  {
    match KindOf(ch)
    case CriterionOption => ChooseCriterion
    case ActionOption => if ch == 'P' then ChooseActionAfterP else ChooseAction
    case GlobalOption => ChooseGlobal
    case FinalOption => ChooseFinal
  }

  /** A second option for a field already set is refused with that field's
      message. */
  lemma StepRejectsRepeat(o: Opts, it: GetoptItem)
    requires Chosen(o, KindOf(it.ch))
    ensures Step(o, it) == Fail(ErrExit(RepeatMessage(it.ch)))
  {
  }

  /** The option itself fails with its field's message. */
  lemma {:induction false} RepeatStops(items: seq<GetoptItem>, k: nat)
    requires k < |items| && Fold(items[..k]).Ok?
    requires Chosen(Fold(items[..k]).value, KindOf(items[k].ch))
    ensures KindOf(items[k].ch) != Unrecognised
    ensures Fold(items[..k + 1]) == Fail(ErrExit(RepeatMessage(items[k].ch)))
  {
    FoldNext(items, k);
    StepRejectsRepeat(Fold(items[..k]).value, items[k]);
  }

  /** An option whose field the options before it already set ends the
      loop with that field's message. */
  lemma {:induction false} RepeatEndsFold(items: seq<GetoptItem>, k: nat)
    requires k < |items| && Fold(items[..k]).Ok?
    requires Chosen(Fold(items[..k]).value, KindOf(items[k].ch))
    ensures KindOf(items[k].ch) != Unrecognised
    ensures Fold(items) == Fail(ErrExit(RepeatMessage(items[k].ch)))
  {
    RepeatStops(items, k);
    FoldFailureIsFinal(items, k + 1);
  }

  /** Once an option of a kind has been accepted, a later option of the same
      kind ends the loop with that kind's "choose only one" message. */
  lemma {:induction false} SecondChoiceRejected(items: seq<GetoptItem>, j: nat, k: nat)
    requires j < k < |items| && Fold(items[..k]).Ok?
    requires KindOf(items[j].ch) == KindOf(items[k].ch) != Unrecognised
    ensures Fold(items) == Fail(ErrExit(RepeatMessage(items[k].ch)))
  {
    PrefixChosen(items, j, k);
    RepeatEndsFold(items, k);
  }

  // ---------------------------------------------------------------------
  // Properties of an accepted request
  // ---------------------------------------------------------------------

  /** What the rest of the program relies on in an accepted request: a
      criterion is set; every criterion but FRONT comes with a primary
      action; FRONT only comes with -S, -H or -F and never with a listing;
      ALL only with a listing; `longList` only with a listing. */
  predicate Consistent(o: Opts) {
    && o.matchType != Unknown
    && (o.matchType != Front ==> o.appAction != AppNone)
    && (o.matchType == Front ==> o.appAction != List && (o.action != ActionNone || o.finalAction != FinalNone))
    && (o.matchType == All ==> o.appAction == List)
    && (o.longList ==> o.appAction == List)
  }

  lemma ParsedRequestIsConsistent(cl: CommandLine)
    requires Parse(cl).Ok?
    ensures Consistent(Parse(cl).value)
  {
    FoldCharacterised(cl.items);
  }

  /** The -p and -c arguments: the option is accepted exactly when its
      argument is valid, and the criterion holds the value read or the four
      characters given. */
  lemma CriterionArguments(items: seq<GetoptItem>, k: nat)
    requires k < |items| && Fold(items[..k]).Ok? && Fold(items[..k]).value.matchType == Unknown
    ensures items[k].ch == 'p' ==>
      (Fold(items[..k + 1]).Ok? <==> ScanInt32(items[k].optarg).Some? && ScanInt32(items[k].optarg).value >= 0)
      && (Fold(items[..k + 1]).Ok? ==> Fold(items[..k + 1]).value.matchType == Pid(ScanInt32(items[k].optarg).value))
      && (Fold(items[..k + 1]).Fail? ==> Fold(items) == Fail(ErrExit(InvalidPid)))
    ensures items[k].ch == 'c' ==>
      (Fold(items[..k + 1]).Ok? <==> |items[k].optarg| == 4)
      && (Fold(items[..k + 1]).Ok? ==> Fold(items[..k + 1]).value.matchType == Creator(items[k].optarg))
      && (Fold(items[..k + 1]).Fail? ==> Fold(items) == Fail(ErrExit(CreatorLength)))
  {
    FoldNext(items, k);
    if Fold(items[..k + 1]).Fail? {
      FoldFailureIsFinal(items, k + 1);
    }
  }

  /** How `sscanf("%d")` reads some -p arguments. */
  lemma PidArgumentExamples()
    ensures ValidPid("42") && ScanInt32("42").value == 42
    ensures ValidPid(" 42abc") && ScanInt32(" 42abc").value == 42
    ensures !ValidPid("-5")
    ensures !ValidPid("abc")
    ensures !ValidPid("")
  {
    DigitsValueOfDigits(42);
    assert Digits(42) == "42";
    ScanDigitRun("42", "");
    assert "42" + "" == "42";
    ScanDigitRun("42", "abc");
    assert "42" + "abc" == "42abc";
    ScanSkipsSpace(" ", "42abc");
    assert " " + "42abc" == " 42abc";
    ScanNegatedDigitRun("-5", "5", "");
    assert DigitsValue("5") == 5;
  }

  /** Every pid a `pid_t` can hold, printed by `%ld`, is accepted back by
      -p as the same pid. */
  lemma PrintedPidAccepted(n: nat)
    requires n < 0x8000_0000
    ensures ValidPid(Decimal(n)) && ScanInt32(Decimal(n)).value == n
  {
    ScanDecimal(n, "");
    assert Decimal(n) + "" == Decimal(n);
  }

  /** Arguments beyond the range of `int` are cut to 32 bits: from 2^31 to
      2^32 - 1 they read as negative numbers and are refused, and a number
      2^32 above a pid reads as that pid. */
  lemma {:induction false} OutOfRangePidArguments(n: nat)
    requires n < 0x8000_0000
    ensures !ValidPid(Decimal(n + 0x8000_0000))
    ensures ValidPid(Decimal(n + 0x1_0000_0000)) && ScanInt32(Decimal(n + 0x1_0000_0000)).value == n
  {
    HighPidRefused(n + 0x8000_0000);
    WrappedPidRead(n + 0x1_0000_0000);
  }

  /** Numbers from 2^31 to 2^32 - 1 wrap to negative values. */
  lemma {:induction false} HighPidRefused(m: int)
    requires 0x8000_0000 <= m < 0x1_0000_0000
    ensures !ValidPid(Decimal(m))
  {
    ScanInt32Decimal(m);
  }

  /** Numbers from 2^32 to 2^32 + 2^31 - 1 lose their 2^32. */
  lemma {:induction false} WrappedPidRead(m: int)
    requires 0x1_0000_0000 <= m < 0x1_8000_0000
    ensures ScanInt32(Decimal(m)) == Some(m - 0x1_0000_0000)
  {
    ScanInt32Decimal(m);
  }

  // ---------------------------------------------------------------------
  // appswitch 1.0d1 (main.c): one option at most
  // ---------------------------------------------------------------------

  const LegacyChooseOne := "choose only one of -c, -i, -u, -p, -a options"

  /** `getargs` of 1.0d1: `getopt` is called once and its option handled,
      a second call that returns anything but -1 is an error, then the
      operand rules (a criterion excludes operands; without one, exactly one
      operand names the path).  The option string is "c:i:p:a:", so any
      other letter arrives as '?', a usage error. */
  function LegacyParse(cl: CommandLine): (r: Result<Criterion>)
    ensures cl.argc == 1 ==> r == Fail(Usage)
    ensures r.Ok? ==> |cl.items| <= 1
    ensures r.Ok? ==> (|cl.items| == 1 <==> !r.value.Path?)
    ensures r.Ok? ==> (r.value.Pid? || r.value.Creator? || r.value.BundleId? || r.value.Name? || r.value.Path?)
    ensures cl.argc != 1 && |cl.items| > 0 && KindOf(cl.items[0].ch) != CriterionOption ==> r == Fail(Usage)
    ensures cl.argc != 1 && |cl.items| > 0 && KindOf(cl.items[0].ch) == CriterionOption && ReadCriterion(cl.items[0]).Fail? ==>
      r == Fail(ReadCriterion(cl.items[0]).failure)
    ensures cl.argc != 1 && |cl.items| > 1 && KindOf(cl.items[0].ch) == CriterionOption && ReadCriterion(cl.items[0]).Ok? ==>
      r == Fail(ErrExit(LegacyChooseOne))
  {
    if cl.argc == 1 then Fail(Usage)
    else
      var first: Result<Criterion> :=
        if |cl.items| == 0 then Ok(Unknown)
        else if KindOf(cl.items[0].ch) == CriterionOption then ReadCriterion(cl.items[0])
        else Fail(Usage);
      match first
      case Fail(f) => Fail(f)
      case Ok(c) =>
        if |cl.items| > 1 then Fail(ErrExit(LegacyChooseOne))
        else if c != Unknown then (if |cl.operands| != 0 then Fail(Usage) else Ok(c))
        else if |cl.operands| != 1 then Fail(Usage)
        else Ok(Path(cl.operands[0]))
  }

  /** On command lines that only use the options 1.0d1 knows, 1.0 accepts
      the same ones and makes the same choice, with SWITCH as the action;
      it fails with the same failure, except that a second option is
      reported with 1.0's own "choose only one" message. */
  lemma LegacyAgreesOnCriteria(cl: CommandLine)
    requires forall k :: 0 <= k < |cl.items| ==> KindOf(cl.items[k].ch) == CriterionOption
    ensures LegacyParse(cl).Ok? <==> Parse(cl).Ok?
    ensures LegacyParse(cl).Ok? ==>
      Parse(cl) == Ok(Opts(LegacyParse(cl).value, Switch, false, ActionNone, FinalNone))
    ensures LegacyParse(cl).Fail? && LegacyParse(cl).failure != ErrExit(LegacyChooseOne) ==>
      Parse(cl) == Fail(LegacyParse(cl).failure)
    ensures LegacyParse(cl) == Fail(ErrExit(LegacyChooseOne)) ==> Parse(cl) == Fail(ErrExit(ChooseCriterion))
  {
    if cl.argc != 1 && |cl.items| > 0 {
      var items := cl.items;
      FoldNext(items, 0);
      assert items[..0] == [];
      if |items| == 1 {
        assert items[..1] == items;
      } else if ReadCriterion(items[0]).Fail? {
        FoldFailureIsFinal(items, 1);
      } else {
        SecondChoiceRejected(items, 0, 1);
      }
    }
  }
}
