/** Status codes, the `ERRS` description table, `osstatusstr`, and the ways
    the program terminates with status 1 (`usage`, `errexit`,
    `osstatusexit`). */
module Status {
  import opened Text

  const NoErr := 0
  const FnfErr := -43
  const ProcNotFound := -600
  const AppIsDaemon := -606
  const CGErrorIllegalArgument := 1001

  /** How a run ends in failure.  Every one of them exits with status 1. */
  datatype Failure =
    | Usage                                  // usage(): the synopsis on standard error
    | ErrExit(msg: string)                   // errexit("<msg>")
    | StatusExit(status: int, what: string)  // osstatusexit(status, "<what>")

  datatype Result<+T> = Ok(value: T) | Fail(failure: Failure)

  datatype ErrRec = ErrRec(status: int, desc: string)

  /** A table ends with an entry whose status is 0 (`{ 0, NULL }`). */
  predicate Terminated(table: seq<ErrRec>) {
    |table| > 0 && table[|table| - 1].status == 0
  }

  /** `ERRS`, terminator included. */
  const Errs: seq<ErrRec> := [
    ErrRec(AppIsDaemon, "application is background-only\n"),
    ErrRec(ProcNotFound, "unable to connect to system service.\nAre you logged in?"),
    ErrRec(CGErrorIllegalArgument, "window server error.\nAre you logged in?"),
    ErrRec(FnfErr, "file not found"),
    ErrRec(0, "")
  ]

  const UnknownError := "unknown error"

  /** The walk `for (rec = &ERRS[i]; rec->status != 0; rec++)`: the
      description of the first entry from `i` on whose status is `err`,
      stopping at the terminator. */
  function Lookup(table: seq<ErrRec>, err: int, i: nat): string
    requires Terminated(table) && i < |table|
    decreases |table| - i
  {
    if table[i].status == 0 then UnknownError
    else if table[i].status == err then table[i].desc
    else Lookup(table, err, i + 1)
  }

  function Describe(err: int): string {
    Lookup(Errs, err, 0)
  }

  /** The walk yields the description of the first entry that carries `err`
      before the terminator, and "unknown error" when the terminator comes
      first. */
  lemma {:induction false} LookupFindsFirst(table: seq<ErrRec>, err: int, i: nat, k: nat)
    requires Terminated(table) && i <= k < |table|
    requires table[k].status == 0 || table[k].status == err
    requires forall j :: i <= j < k ==> table[j].status != 0 && table[j].status != err
    ensures Lookup(table, err, i) == if table[k].status == 0 then UnknownError else table[k].desc
    decreases k - i
  {
    if i < k {
      LookupFindsFirst(table, err, i + 1, k);
    }
  }

  /** The codes `ERRS` describes, and nothing else: in particular the
      terminator's own code, noErr, reads as "unknown error". */
  lemma DescribeTable(err: int)
    ensures err == AppIsDaemon ==> Describe(err) == "application is background-only\n"
    ensures err == ProcNotFound ==> Describe(err) == "unable to connect to system service.\nAre you logged in?"
    ensures err == CGErrorIllegalArgument ==> Describe(err) == "window server error.\nAre you logged in?"
    ensures err == FnfErr ==> Describe(err) == "file not found"
    ensures err !in {AppIsDaemon, ProcNotFound, CGErrorIllegalArgument, FnfErr} ==> Describe(err) == UnknownError
  {
    var k := if err == AppIsDaemon then 0 else if err == ProcNotFound then 1
             else if err == CGErrorIllegalArgument then 2 else if err == FnfErr then 3 else 4;
    LookupFindsFirst(Errs, err, 0, k);
  }

  /** The message `osstatusstr` is meant to produce: the description and the
      code in parentheses, "%s (%ld)". */
  function StatusText(err: int): string {
    Describe(err) + " (" + Decimal(err) + ")"
  }

  /** `osstatusstr`.  The table walk is the source's; the message is the
      full "%s (%ld)" text (see `OsStatusStrAsWritten` for the buffer the
      source sizes for it). */
  method OsStatusStr(err: int) returns (s: string)
    ensures s == StatusText(err)
  {
    var errDesc := UnknownError;
    var rec := 0;
    while Errs[rec].status != 0
      invariant 0 <= rec < |Errs|
      invariant Lookup(Errs, err, rec) == Describe(err)
      decreases |Errs| - rec
    {
      if Errs[rec].status == err {
        errDesc := Errs[rec].desc;
        break;
      }
      rec := rec + 1;
    }
    s := errDesc + " (" + Decimal(err) + ")";
  }

  /** The message ends with the code in parentheses, and the code can be
      read back from it. */
  lemma StatusTextNamesCode(err: int)
    ensures var s := StatusText(err);
      && s[..|Describe(err)|] == Describe(err)
      && s[|s| - 1] == ')'
      && ScanInt(s[|Describe(err)| + 2..]) == Some(err)
  {
    var s := StatusText(err);
    assert s[|Describe(err)| + 2..] == Decimal(err) + ")";
    ScanDecimal(err, ")");
  }

  // ---------------------------------------------------------------------
  // The buffer osstatusstr allocates
  // ---------------------------------------------------------------------

  /** `snprintf(str, len, ...)` keeps at most `len - 1` characters. */
  function Snprintf(text: string, len: nat): string
    requires len >= 1
  {
    text[..Min(|text|, len - 1)]
  }

  /** `osstatusstr` as written: the buffer holds `strlen(errDesc) + 10`
      bytes, so the text is cut after `strlen(errDesc) + 9` characters. */
  function OsStatusStrAsWritten(err: int): string {
    Snprintf(StatusText(err), |Describe(err)| + 10)
  }

  /** The buffer is large enough for every 16-bit OSErr code, whose decimal
      form has at most six characters. */
  lemma AsWrittenExactForOSErr(err: int)
    requires -32768 <= err <= 32767
    ensures OsStatusStrAsWritten(err) == StatusText(err)
  {
    DigitsShort(if err < 0 then -err else err, 5);
    assert |Decimal(err)| <= 6;
  }

  /** A 32-bit OSStatus whose decimal form has seven characters loses the
      closing parenthesis. */
  lemma AsWrittenDropsParenthesis()
    ensures OsStatusStrAsWritten(1000000) == "unknown error (1000000"
  {
    DescribeTable(1000000);
    assert Decimal(1000000) == "1000000";
  }

  /** Every code from 1000000 up or from -100000 down is cut short: the
      message is a proper prefix of the intended one. */
  lemma AsWrittenTruncatesLongCodes(err: int)
    requires err >= 1000000 || err <= -100000
    ensures |OsStatusStrAsWritten(err)| < |StatusText(err)|
    ensures OsStatusStrAsWritten(err) == StatusText(err)[..|OsStatusStrAsWritten(err)|]
  {
    if err < 0 {
      DigitsLong(-err, 5);
    } else {
      DigitsLong(err, 6);
    }
  }
}
