/** The listing printed by -l and -L in appswitch 1.0: the header, one row
    per matching process, the rendering of four-character codes and the
    width of the path column. */
module Listing {
  import opened Text
  import opened Args
  import opened Records

  /** The header's fixed columns; a row's fields before the path line up
      under them. */
  const Banner := "       PSN   PID TYPE CREA NAME                "

  /** `CXX(c)`: a byte below ' ' prints as a space. */
  function Cxx(c: char): char {
    if c < ' ' then ' ' else c
  }

  /** `OSTYPE_CHAR_ARGS(t)`: the four bytes of a code, each through `CXX`. */
  function TagText(t: OSType): (r: string)
    ensures |r| == 4
  {
    [Cxx(t[0]), Cxx(t[1]), Cxx(t[2]), Cxx(t[3])]
  }

  /** Every rendered byte is printable: a control byte becomes a space and
      any other byte is kept. */
  lemma TagTextShape(t: OSType)
    ensures var r := TagText(t);
      && (forall i :: 0 <= i < 4 ==> ' ' <= r[i])
      && (forall i :: 0 <= i < 4 ==> (t[i] < ' ' ==> r[i] == ' ') && (' ' <= t[i] ==> r[i] == t[i]))
  {
    var r := TagText(t);
    assert r[0] == Cxx(t[0]) && r[1] == Cxx(t[1]) && r[2] == Cxx(t[2]) && r[3] == Cxx(t[3]);
  }

  /** A code without control characters is shown exactly as it is. */
  lemma TagTextOfPrintable(t: OSType)
    requires forall i :: 0 <= i < 4 ==> ' ' <= t[i]
    ensures TagText(t) == t
  {
    TagTextShape(t);
    var r := TagText(t);
    assert forall i :: 0 <= i < 4 ==> r[i] == t[i];
  }

  /** Rendering a rendered code changes nothing. */
  lemma TagTextIdempotent(t: OSType)
    ensures TagText(TagText(t)) == TagText(t)
  {
    TagTextShape(t);
    TagTextOfPrintable(TagText(t));
  }

  // ---------------------------------------------------------------------
  // Terminal width and the path column
  // ---------------------------------------------------------------------

  /** `int pathlen = termwidth - strlen(banner) - 1`: the subtraction is done
      on a 32-bit `size_t` and the result converted back to a 32-bit `int`. */
  function PathLen(termwidth: int): int {
    Int32(termwidth - |Banner| - 1)
  }

  /** For every width a terminal can report (`ws_col` is 16 bits), the
      unsigned arithmetic gives the plain difference, negative below 48. */
  lemma PathLenIsDifference(termwidth: int)
    requires 0 <= termwidth <= 65535
    ensures PathLen(termwidth) == termwidth - |Banner| - 1
    ensures PathLen(termwidth) >= 4 <==> termwidth >= 52
  {
  }

  /** The three shapes of the listing. */
  datatype Layout =
    | LongLayout                     // -L: full path, then the bundle identifier
    | ShortWithPath(width: int)      // -l: path cut and padded to `width`
    | ShortNoPath                    // -l on a terminal too narrow for a path

  function ChooseLayout(longList: bool, termwidth: int): (l: Layout)
    ensures l.ShortWithPath? ==> l.width >= 4
  {
    if longList then LongLayout
    else if PathLen(termwidth) >= 4 then ShortWithPath(PathLen(termwidth))
    else ShortNoPath
  }

  /** The header line: none when there is no path column. */
  function Header(l: Layout): string {
    match l
    case LongLayout => Banner + " PATH (bundle identifier)\n"
    case ShortWithPath(_) => Banner + " PATH\n"
    case ShortNoPath => ""
  }

  /** `"%8ld.%ld %5ld %c%c%c%c %c%c%c%c %-20.20s"`. */
  function RowFields(psn: Psn, info: ProcessInfo): string {
    RightJustify(Decimal(psn.hi), 8) + "." + Decimal(psn.lo) + " "
      + RightJustify(Decimal(info.pid), 5) + " "
      + TagText(info.fileType) + " " + TagText(info.creator) + " "
      + LeftField(info.name, 20)
  }

  /** What the row's `printf` writes: the fields, then the path as the
      layout has it. */
  function RowText(l: Layout, psn: Psn, info: ProcessInfo): string {
    RowFields(psn, info) +
      match l
      case LongLayout => " " + info.path
      case ShortWithPath(w) => " " + LeftField(info.path, if w < 0 then 0 else w)
      case ShortNoPath => ""
  }

  /** With a PSN of at most eight digits before the dot and one after, and
      a pid of at most five digits, the fields take exactly the banner's
      width and each sits under its heading: PSN ends at column 9, PID
      spans 11-15, TYPE 17-20, CREA 22-25 and NAME starts at 27. */
  lemma RowAligned(psn: Psn, info: ProcessInfo)
    requires 0 <= psn.hi < 100000000 && 0 <= psn.lo < 10 && 0 <= info.pid < 100000
    ensures var r := RowFields(psn, info);
      && |r| == |Banner|
      && r[..8] == RightJustify(Decimal(psn.hi), 8) && r[8] == '.'
      && r[11..16] == RightJustify(Decimal(info.pid), 5)
      && r[17..21] == TagText(info.fileType)
      && r[22..26] == TagText(info.creator)
      && r[27..] == LeftField(info.name, 20)
  {
    DigitsShort(psn.hi, 8);
    DigitsShort(info.pid, 5);
    var hi := RightJustify(Decimal(psn.hi), 8);
    var pid := RightJustify(Decimal(info.pid), 5);
    assert |Decimal(psn.lo)| == 1;
    var r := RowFields(psn, info);
    assert r == hi + "." + Decimal(psn.lo) + " " + pid + " " + TagText(info.fileType) + " "
                + TagText(info.creator) + " " + LeftField(info.name, 20);
  }

  lemma RowTextLength(l: Layout, psn: Psn, info: ProcessInfo)
    requires l.ShortWithPath? && l.width >= 0
    ensures |RowText(l, psn, info)| == |RowFields(psn, info)| + 1 + l.width
  {
  }

  /** On a terminal at least 52 columns wide, a short row with such fields
      fills the terminal's width exactly. */
  lemma ShortRowFillsWidth(termwidth: int, psn: Psn, info: ProcessInfo)
    requires 52 <= termwidth <= 65535
    requires 0 <= psn.hi < 100000000 && 0 <= psn.lo < 10 && 0 <= info.pid < 100000
    ensures ChooseLayout(false, termwidth) == ShortWithPath(termwidth - 48)
    ensures |RowText(ChooseLayout(false, termwidth), psn, info)| == termwidth
  {
    PathLenIsDifference(termwidth);
    var l := ChooseLayout(false, termwidth);
    assert l == ShortWithPath(termwidth - 48);
    RowAligned(psn, info);
    RowTextLength(l, psn, info);
  }

  /** The listing has a header exactly when it has a path column. */
  lemma HeaderIffPath(longList: bool, termwidth: int)
    ensures Header(ChooseLayout(longList, termwidth)) != "" <==> (longList || PathLen(termwidth) >= 4)
    ensures Header(ChooseLayout(longList, termwidth)) != "" ==>
      Header(ChooseLayout(longList, termwidth))[..|Banner|] == Banner
  {
  }

  // ---------------------------------------------------------------------
  // The terminal width as the ioctl calls leave it
  // ---------------------------------------------------------------------

  /** `ws.ws_col`, an `unsigned short`. */
  type Columns = x: int | 0 <= x < 0x10000

  /** The width test as written: `(ok1 || ok2 || ok3) || ws.ws_col != 0`,
      where `ioctlOk` says whether one of the three calls succeeded and
      `wsCol` is what `ws.ws_col` holds (unset when none did). */
  function TermWidthAsWritten(ioctlOk: bool, wsCol: Columns): int {
    if ioctlOk || wsCol != 0 then wsCol else 80
  }

  /** The width the test is meant to yield: the reported width when a call
      succeeded and reported one, otherwise 80. */
  function TermWidth(ioctlOk: bool, wsCol: Columns): (w: int)
    ensures 0 < w <= 65535
    ensures ioctlOk && wsCol != 0 ==> w == wsCol
    ensures !(ioctlOk && wsCol != 0) ==> w == 80
  {
    if ioctlOk && wsCol != 0 then wsCol else 80
  }

  /** A terminal that reports no width: as written the width becomes 0 and
      the short listing loses its path column; as intended it is 80. */
  lemma ZeroWidthAsWritten()
    ensures TermWidthAsWritten(true, 0) == 0
    ensures ChooseLayout(false, TermWidthAsWritten(true, 0)) == ShortNoPath
    ensures ChooseLayout(false, TermWidth(true, 0)) == ShortWithPath(32)
  {
    PathLenIsDifference(0);
    PathLenIsDifference(80);
  }

  /** When no call succeeds, the width as written is whatever `ws.ws_col`
      happened to hold; as intended it is 80. */
  lemma UnsetWidthAsWritten(garbage: Columns)
    requires garbage != 0
    ensures TermWidthAsWritten(false, garbage) == garbage
    ensures TermWidth(false, garbage) == 80
  {
  }

  /** Both tests agree whenever a call succeeded and reported a width. */
  lemma WidthTestsAgree(ioctlOk: bool, wsCol: Columns)
    ensures TermWidthAsWritten(ioctlOk, wsCol) == TermWidth(ioctlOk, wsCol)
            <==> (ioctlOk && wsCol != 0) || (!ioctlOk && wsCol == 0) || wsCol == 80
  {
  }
}
