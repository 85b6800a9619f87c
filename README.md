# appswitch, modelled in Dafny

appswitch is a Mac OS X command-line application switcher. It picks one
running application and asks the system to bring it to the front, show it,
hide it, quit it, kill it, or print its pid. It can also list the running
applications that match a criterion. The criterion is a creator code (`-c`),
a bundle identifier (`-i`), a name (`-a`), a pid (`-p`), a path (the one
operand), the frontmost application, or all of them. Two versions are
modelled:

- 1.0 (`appswitch/main.c`);
- 1.0d1 (`main.c`), which accepts only one criterion and only switches.

The model has seven modules:

- **Text** (`text.dfy`): the C string behaviour the program relies on.
  These are `printf("%ld")`, `sscanf("%d")`, the `%-w.ws` and `%wld`
  fields, and case folding.
- **Status** (`status.dfy`): the `ERRS` table, `osstatusstr`, and the three
  ways a run fails with exit status 1 (`usage`, `errexit`, `osstatusexit`).
- **Args** (`args.dfy`): `getargs` of both versions, which builds the
  `OPTS` request record. 1.0's option loop is a method proved equal to a
  fold over the options, and the fold is characterised without the loop.
- **Records** (`records.dfy`): the process enumeration, information records
  and front-process replies, all taken as inputs.
- **Listing** (`listing.dfy`): the rows `-l`/`-L` print, the `CXX` rendering
  of four-character codes, the path-column width and the terminal width.
- **Matching** (`matching.dfy`): the enumeration loop of `matchApplication`
  (1.0) and of 1.0d1's `main`, and `matchApplication` itself.
- **Program** (`program.dfy`): `main` of both versions. It covers the three
  action switches as a trace of system requests, their replies, and the
  whole run from command line to exit.

The system calls do not run in the model. The enumeration is a sequence of
(PSN, information reply) slots followed by the status that ends
`CPSGetNextProcess`. The other inputs are the front-process replies, the
status each request returns, whether a `TIOCGWINSZ` call succeeded with its
`ws_col`, and the bundle identifier each path resolves to. A run yields:

- what it printed on standard output;
- the requests it made, in order;
- its exit: success, or the failure that ended it.

## Model

| member | source | states |
|---|---|---|
| `Text.ScanSkipsSpace` | appswitch/main.c:144 | `sscanf("%d")` skips leading white space: a space prefix does not change what is read |
| `Text.ScanDigitRun` | appswitch/main.c:144 | a digit run at the start of the text is read as its value, whatever non-digit follows |
| `Text.ScanNegatedDigitRun` | appswitch/main.c:144 | a minus sign then a digit run is read as the negated value |
| `Text.ScanDecimal` | appswitch/main.c:144 | the `%d` conversion reads back the value `%ld` printed, for every integer and any non-digit continuation (before it is stored in an `int`) |
| `Text.Int32` | appswitch/main.c:317 | converting to a 32-bit `int` always gives a value in range and keeps every value already in range |
| `Text.Int32Wraps` | appswitch/main.c:317 | the conversion changes a value by a multiple of 2^32 only |
| `Text.ScanInt32` | appswitch/main.c:144 | `sscanf("%d")` into an `int` stores a value exactly when it reads one, and stores the value read whenever it fits in an `int` |
| `Text.LeftFieldShape` | appswitch/main.c:316 | a `%-w.ws` field is the text cut to `w` characters, then spaces up to exactly `w` |
| `Text.RightJustifyShape` | appswitch/main.c:316 | a `%wld` field is padding spaces, then the number's text |
| `Status.LookupFindsFirst` | appswitch/main.c:98-102 | the table walk yields the description of the first entry carrying the code, or "unknown error" when the 0 sentinel comes first |
| `Status.DescribeTable` | appswitch/main.c:57-65 | the four codes of `ERRS` get their descriptions; every other code, 0 included, reads "unknown error" |
| `Status.OsStatusStr` | appswitch/main.c:91-110 | the loop over `ERRS` returns the "%s (%ld)" message of the first matching entry |
| `Status.StatusTextNamesCode` | appswitch/main.c:106 | the message starts with the description, ends with ')', and the code in parentheses reads back as the code |
| `Status.AsWrittenExactForOSErr` | appswitch/main.c:103-106 | the `strlen(desc) + 10` buffer holds the whole message for every 16-bit OSErr |
| `Status.AsWrittenDropsParenthesis` | appswitch/main.c:103-106 | code 1000000 loses its closing parenthesis in that buffer |
| `Status.AsWrittenTruncatesLongCodes` | appswitch/main.c:103-106 | every code from 1000000 up or from -100000 down is cut to a proper prefix of the intended message |
| `Args.Resolve` | appswitch/main.c:216-232 | the operand rules: a criterion with operands is usage; without a criterion, no operand gives ALL for a listing, FRONT with -S/-H/-F, else usage; one operand gives PATH; more is usage; a criterion other than FRONT without an action gets SWITCH; the other fields are kept |
| `Args.GetArgs` | appswitch/main.c:131-234 | the option loop updating `OPTS` field by field, then the operand rules, equals `Parse` |
| `Args.FoldFailureIsFinal` | appswitch/main.c:140-211 | once an option is refused, the later options change nothing (`errexit`/`usage` end the loop) |
| `Args.SummaryStep` | appswitch/main.c:141-210 | one more option: the loop goes on exactly when the longer sequence is still admissible, and then holds the record it describes |
| `Args.FoldCharacterised` | appswitch/main.c:140-211 | the loop accepts exactly the sequences of valid options with at most one criterion, one primary action, one of -S/-H and one -F; the record holds each field's option, and `longList` exactly when the action is -L |
| `Args.StepRejectsRepeat` | appswitch/main.c:143-206 | an option whose field is already set fails with that field's "choose only one" message (the -P branch's own text for -P) |
| `Args.RepeatEndsFold` | appswitch/main.c:143-207 | an option whose field the options before it already set ends `getargs` with that field's message |
| `Args.SecondChoiceRejected` | appswitch/main.c:143-207 | after an accepted option, a later option of the same kind ends `getargs` with that kind's message |
| `Args.CriterionArguments` | appswitch/main.c:142-153 | -p is accepted exactly when `sscanf` stores an integer >= 0 in the 32-bit pid, and that is the pid; -c exactly when its argument has four characters and stores them; otherwise the run fails with the matching message |
| `Args.PidArgumentExamples` | appswitch/main.c:144 | "42" and " 42abc" are pid 42; "-5", "abc" and "" are refused |
| `Args.PrintedPidAccepted` | appswitch/main.c:144 | every pid a `pid_t` can hold, printed in decimal, is accepted back by -p as the same pid |
| `Args.OutOfRangePidArguments` | appswitch/main.c:144 | arguments from 2^31 to 2^32 - 1 are stored as negative numbers and refused; an argument 2^32 above a pid is stored as that pid |
| `Args.ParsedRequestIsConsistent` | appswitch/main.c:216-232 | an accepted request has a criterion; every criterion but FRONT has an action; FRONT comes only with -S/-H/-F and never with a listing; ALL and `longList` only with a listing |
| `Args.LegacyParse` | main.c:108-156 | 1.0d1 `getargs`: argc 1 is usage; a first option other than -p, -c, -i, -a is usage; a refused -p or -c argument fails with its message; after an accepted first option, any second option fails with "choose only one of -c, -i, -u, -p, -a options"; an accepted line has at most one option, which is present exactly when the criterion is not PATH; the criterion is one of -p, -c, -i, -a or PATH |
| `Args.LegacyAgreesOnCriteria` | main.c:117-155 | on command lines of criterion options both versions accept the same lines with the same criterion (1.0 adding SWITCH) and fail alike, except that 1.0 reports a second option with its own message |
| `Listing.TagText` | appswitch/main.c:368 | `OSTYPE_CHAR_ARGS` renders exactly four characters |
| `Listing.TagTextShape` | appswitch/main.c:367-368 | each byte below ' ' becomes a space and every other byte is kept |
| `Listing.TagTextOfPrintable` | appswitch/main.c:367-368 | a code without control bytes prints as itself |
| `Listing.TagTextIdempotent` | appswitch/main.c:367-368 | rendering a rendered code changes nothing |
| `Listing.PathLenIsDifference` | appswitch/main.c:317 | for every 16-bit width the 32-bit unsigned subtraction gives `termwidth - 47 - 1`, which is >= 4 exactly from width 52 |
| `Listing.ChooseLayout` | appswitch/main.c:319-327 | a short listing has a path column only when its width is at least 4 |
| `Listing.HeaderIffPath` | appswitch/main.c:319-327 | a header is printed exactly when there is a path column (-L, or a width >= 4), and it starts with the banner |
| `Listing.RowAligned` | appswitch/main.c:310-316 | with an 8-digit PSN, a one-digit low PSN and a 5-digit pid, a row's fields take the banner's width and sit under PSN, PID, TYPE, CREA and NAME |
| `Listing.RowTextLength` | appswitch/main.c:324 | a short row with a path column is the fields, a space and exactly the column's width |
| `Listing.ShortRowFillsWidth` | appswitch/main.c:317-324 | on a terminal 52 to 65535 columns wide, a short row fills the width exactly |
| `Listing.TermWidth` | appswitch/main.c:308-315 | the width is the reported `ws_col` (an `unsigned short`) when a call succeeded and it is nonzero, otherwise 80; it is never 0 and fits 16 bits |
| `Listing.ZeroWidthAsWritten` | appswitch/main.c:312-315 | as written, a call that reports 0 columns gives width 0 and no path column, where 80 gives a 32-column path |
| `Listing.UnsetWidthAsWritten` | appswitch/main.c:312-315 | as written, when every call fails the width is whatever `ws_col` held; as intended it is 80 |
| `Listing.WidthTestsAgree` | appswitch/main.c:312-315 | the written and the intended test agree exactly when a call reported a width, or none succeeded and `ws_col` is 0, or it is 80 |
| `Matching.LegacyJudgesAlike` | main.c:188-214 | for the criteria both versions have, 1.0d1 judges every process as 1.0 does: a creator, name, pid or path criterion accepts exactly when it equals the process's creator, name, pid or path and is never fatal; and for a bundle identifier fatal without a URL, skip without an identifier, otherwise equality ignoring case |
| `Matching.LineTextShape` | appswitch/main.c:369-393 | a complete row ends in a newline; a row cut short by a missing bundle location is the fields and path alone |
| `Matching.Visit` | appswitch/main.c:330-395 | a turn stops at a process only when selecting and its information was read; when selecting nothing is printed |
| `Matching.ScanFrom` | appswitch/main.c:330-398 | the loop stops at a match only when selecting, at a process whose information was read; when selecting it prints nothing |
| `Matching.ScanPasses` | appswitch/main.c:341-360 | a process that was read and does not match (`continue`) leaves the outcome to the processes after it |
| `Matching.ScanAccepts` | appswitch/main.c:396 | when selecting, a matching process ends the loop there |
| `Matching.EndOnlyPastSkipped` | appswitch/main.c:330-398 | the selection gets past a process to the end only when the process was read and skipped |
| `Matching.ScanHalts` | appswitch/main.c:331-363 | a process that neither matches nor is skipped ends the loop with a failure, with the status of a failed information call |
| `Matching.FirstMatchWins` | appswitch/main.c:330-396 | the selection stops at process `k` exactly when `k` matches and every process before it was read and skipped |
| `Matching.NoMatchReachesEnd` | appswitch/main.c:398-402 | when every process is skipped the loop ends normally on procNotFound and with "can't get next process" on any other status |
| `Matching.EndMeansNoMatch` | appswitch/main.c:398 | conversely, a normal end means procNotFound and every process skipped |
| `Matching.InfoFailureIsFatal` | appswitch/main.c:331-332 | a failed information call after skipped processes ends the loop with its status, in either mode |
| `Matching.LegacyScanAlike` | main.c:180-217 | both versions' loops give the same result for the criteria both have |
| `Matching.ListingPrintsEveryMatch` | appswitch/main.c:365-398 | in list mode the loop prints one complete row per matching process, in order, and always reaches the end of the enumeration |
| `Matching.EnumerateMatches` | appswitch/main.c:330-398 | the `while (CPSGetNextProcess ...)` loop prints the rows and ends as `ScanFrom` says |
| `Matching.MatchApplication` | appswitch/main.c:290-404 | `matchApplication` prints the header and rows and returns the process as `MatchSpec` says |
| `Matching.SelectReturnsFirstMatch` | appswitch/main.c:330-396 | outside list mode nothing is printed and the first match is returned with its information record |
| `Matching.SelectWithoutMatch` | appswitch/main.c:398-402 | outside list mode, with no match, the result is "can't find matching process" on procNotFound and "can't get next process" otherwise |
| `Matching.ListModeOutput` | appswitch/main.c:307-400 | in list mode the output is the header then one row per match, and the result is the frontmost process or the enumeration's failure |
| `Program.PrimaryAction` | appswitch/main.c:419-435 | the first switch and its status check equal `Primary` |
| `Program.GlobalAction` | appswitch/main.c:437-444 | the second switch and its status check equal `Global` |
| `Program.FinalAction` | appswitch/main.c:446-460 | the third switch and its status check equal `Final` |
| `Program.RunActions` | appswitch/main.c:419-462 | the three switches in sequence, stopping at the first failure, equal `Actions` |
| `Program.PrimaryFailureStopsRun` | appswitch/main.c:435 | a failing primary request is the only request, and the failure is "can't <verb> process" with its status |
| `Program.GlobalFailureStopsRun` | appswitch/main.c:444 | a failing -S/-H request ends the run after it: no front-process request and no pause |
| `Program.RequestsInOrder` | appswitch/main.c:419-460 | the requests are the primary's, then the global's, then the final's; the first two make at most one each and the final starts by fetching the front process |
| `Program.PauseOnlyAfterGlobal` | appswitch/main.c:453 | the pause happens exactly when -F follows a successful global action and the front process was found |
| `Program.FinalStatusCollapses` | appswitch/main.c:454-460 | -F fails exactly when showing or bringing to front fails, always with status 1; a failed show skips bringing to front |
| `Program.PrintPidOutput` | appswitch/main.c:428-431 | -P fails without output for a pid <= 0 and otherwise prints the pid in a form that reads back as the same number |
| `Program.AppSwitch` | appswitch/main.c:406-463 | `main` of 1.0 equals `Run`, whose listing uses the corrected terminal width (see Findings) |
| `Program.RejectedCommandLineDoesNothing` | appswitch/main.c:410 | a rejected command line prints nothing and makes no request; argc 1 is usage |
| `Program.SwitchBringsFirstMatchToFront` | appswitch/main.c:416-422 | a plain switch brings the first matching process to the front and asks for nothing else |
| `Program.LegacyMain` | main.c:158-226 | `main` of 1.0d1 equals `LegacyRun` |
| `Program.SwitchAlike` | main.c:179-226 | with a criterion 1.0d1 accepts and SWITCH as the only action, 1.0's match and actions print, request and exit as 1.0d1's match and switch do |
| `Program.VersionsAgree` | main.c:158-226 | on every command line 1.0d1 accepts, 1.0 prints, requests and exits the same |
| `Program.VersionsRejectAlike` | main.c:108-156 | both versions reject the same criterion-only command lines without output or requests, with the same failure unless it is 1.0d1's "choose only one" |

`main.c:68-87` is the same `osstatusstr` as `appswitch/main.c:91-110`, and
the Status members model both.

## Left out

- The system calls themselves (`CPSGetNextProcess`, `CPSGetProcessInfo`, `CPSGetFrontProcess`, `CPSSetFrontProcess`, the show, hide, kill, show-all and hide-most requests) are inputs and requests. Nothing about what they do to other applications is modelled.
- `quitApplication` (appswitch/main.c:266-288): the Apple event construction is a foreign API. It is one `QuitApplication` request whose status is an input.
- `bundleIdentifierForApplication` (appswitch/main.c:246-264): CFURL and CFBundle are a per-process input (`BundleLookup`: no URL, or an optional identifier).
- `CFStringCompare` with `kCFCompareCaseInsensitive` is modelled as ASCII case folding. Unicode case folding is not modelled.
- CFString encoding conversion is not modelled. This covers the "string encoding conversion failed" error at appswitch/main.c:383.
- The terminal-size `ioctl` calls are an input: whether one succeeded, and the `ws_col` they left.
- Program.AppSwitch: the whole run lays out the listing with the corrected width `Listing.TermWidth`, not the test as written. When a terminal reports 0 columns, the program as written prints no header and no path column, where `Program.Run` uses 80 columns. The as-written width is `Listing.TermWidthAsWritten`, and its effect on the layout is stated by `Listing.ZeroWidthAsWritten`.
- The `CPSGetFrontProcess` calls inside `matchApplication` (appswitch/main.c:299, 400) are an input (`World.front`), not requests in the trace. Only the call that -F makes (appswitch/main.c:449) appears there, as `GetFrontProcess`. So `-F` alone makes two calls, and its trace shows one.
- A -p argument outside the range of `int` is undefined in the C standard. The model follows the C library's `%d`, which saturates the value at 64 bits (`strtoimax`) and stores its low 32 bits.
- `pathconf`/`malloc` failures ("can't allocate memory for path or filename buffer") are left out. Allocation is outside the model.
- The `malloc` failure of `osstatusstr` ("(unable to retrieve error message)") is left out for the same reason.
- `usleep(750000)`: only the `Pause` request is recorded, not the time.
- `InitCursor`, the connection to the window server, is not modelled.
- `DEBUG` output is not modelled. It is compiled out (`DEBUG 0`).
- The text of `usage()` is not modelled. `Usage` is a failure with exit status 1.
- The `APP_NAME:` prefix and the standard error formatting of `errexit`/`osstatusexit` are not modelled beyond the `Failure` value, which carries the message and the status.
- `getopt` internals are not modelled: option clustering, `optind`, and how '?' arises. A command line is the sequence of options `getopt` returns, then the operands.
- Byte order and signedness of `OSType`: a code is its four bytes in memory order (big-endian), and `CXX` compares them as unsigned characters.
- -P with the FRONT criterion reads an uninitialised information record (appswitch/main.c:299, 429). That is undefined behaviour. The model takes an arbitrary `stalePid` input and says nothing about its value.
- The "internal error: invalid application action / action / final action" defaults (appswitch/main.c:432-433, 441-442, 457-458) cannot be reached with the enumerations' values, so they are not modelled.
- `Matching.EnumerateMatches` collects the printed rows and `matchApplication` renders them after the loop. The interleaving of standard output with a failure message on standard error is not modelled.
- The listing is printed with `printf` and the pid with `%lu`. The model covers the field rules above, not byte-level `printf`.
- Memory management is not modelled: the static string in `osstatusstr`, the leaked `format`, and the released CF objects.

## Findings

| source | as written | input that shows it | evidently intended | confidence | as-written member | corrected member |
|---|---|---|---|---|---|---|
| appswitch/main.c:312-315 | `(ioctl(...) != -1 \|\| ... ) \|\| ws.ws_col != 0` takes `ws_col` whenever one call succeeded, even when it reports 0 columns, and whenever `ws_col` is nonzero although no call succeeded and it was never set | a terminal that answers `TIOCGWINSZ` with `ws_col` 0: the width becomes 0, `pathlen` is -48, and `-l` prints no header and no path column | `&&`: use `ws_col` only when a call succeeded and it is nonzero, otherwise keep 80 | medium; not executed | `Listing.TermWidthAsWritten`, exhibited by `Listing.ZeroWidthAsWritten` and `Listing.UnsetWidthAsWritten` | `Listing.TermWidth`, used by `Program.Width` for the whole run |
| appswitch/main.c:103-106 (also main.c:80-83) | the buffer for "%s (%ld)" is `strlen(errDesc) + 10` bytes, which leaves room for at most 6 characters of the code | `osstatusstr(1000000)` gives "unknown error (1000000", without the closing parenthesis | a buffer large enough for any `long` code, so the whole message is kept | low (the codes seen are 16-bit OSErr values, which always fit); not executed | `Status.OsStatusStrAsWritten`, exhibited by `Status.AsWrittenDropsParenthesis` and `Status.AsWrittenTruncatesLongCodes` | `Status.OsStatusStr` (the full `Status.StatusText` message) |
