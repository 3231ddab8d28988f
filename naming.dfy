/** Log file names: how the writer builds them (`logFileNameGenerator`) and
    how the cleanup sweep reads the date back out of them (`cleanLogFile`). */
module Naming {
  import opened Text

  predicate IsDigit(c: char)
  {
    '0' <= c <= '9'
  }

  /** The text of Go's `150405.000` layout: HHMMSS, a dot, milliseconds. */
  predicate IsClockStamp(c: string)
  {
    |c| == 10 && c[6] == '.' && forall i :: 0 <= i < 10 && i != 6 ==> IsDigit(c[i])
  }

  /** `stamp[:6] + stamp[7:]`: the clock stamp with its dot (index 6) dropped. */
  function StampDigits(clock: string): (r: string)
    requires |clock| >= 7
    ensures |r| == |clock| - 1
    ensures IsClockStamp(clock) ==> forall i :: 0 <= i < |r| ==> IsDigit(r[i])
    ensures IsClockStamp(clock) ==> '.' !in r
  {
    clock[..6] + clock[7..]
  }

  /** logFileNameGenerator: the canonical name `<base>_<date><ext>`, or with
      `withFlag` the backup name `<base>_<date>_<HHMMSSfff><ext>`. */
  function LogFileName(logFile: string, ext: string, date: string, withFlag: bool, clock: string): (r: string)
    requires withFlag ==> |clock| >= 7
    ensures |r| >= |logFile| + 1 + |date| + |ext|
    ensures r[..|logFile|] == logFile
    ensures r[|logFile|..|logFile| + 1 + |date|] == "_" + date
    ensures r[|r| - |ext|..] == ext
  {
    if withFlag then logFile + "_" + date + "_" + StampDigits(clock) + ext
    else logFile + "_" + date + ext
  }

  /** The backup name a size rotation renames to never equals the canonical
      name it frees, so the rename really frees it. */
  lemma {:induction false} BackupDiffersFromCanonical(logFile: string, ext: string, date: string, clock: string)
    requires |clock| >= 7
    ensures LogFileName(logFile, ext, date, true, clock) != LogFileName(logFile, ext, date, false, clock)
  {
    assert |LogFileName(logFile, ext, date, true, clock)| > |LogFileName(logFile, ext, date, false, clock)|;
  }

  /** Two backups of the same day taken at different clock stamps get
      different names. */
  lemma {:induction false} BackupNamesDistinguishStamps(logFile: string, ext: string, date: string, c1: string, c2: string)
    requires IsClockStamp(c1) && IsClockStamp(c2) && c1 != c2
    ensures LogFileName(logFile, ext, date, true, c1) != LogFileName(logFile, ext, date, true, c2)
  {
    var k := |logFile| + 1 + |date| + 1;
    var n1 := LogFileName(logFile, ext, date, true, c1);
    var n2 := LogFileName(logFile, ext, date, true, c2);
    var i :| 0 <= i < 10 && c1[i] != c2[i];
    var j := if i < 6 then i else i - 1;
    if i == 6 {
      assert false;
    }
    assert n1[k + j] == StampDigits(c1)[j] != StampDigits(c2)[j] == n2[k + j];
  }

  /** What the sweep makes of a file name, as written: the guard measures the
      second piece of the split but the slice `[1:9]` is taken from the last
      piece, which faults when that piece is shorter than 9 bytes. */
  datatype Scan = Skip | Token(date: string) | Panic

  function DateTokenAsWritten(name: string, logFile: string): (r: Scan)
    ensures r.Token? ==> |r.date| == 8
    ensures r == Panic ==> |Split(name, logFile)| >= 3
  {
    var n := Split(name, logFile);
    if |n| >= 2 && |n[1]| >= 9 then
      if |n[|n| - 1]| >= 9 then Token(n[|n| - 1][1..9]) else Panic
    else Skip
  }

  /** The sweep's date token, corrected: the guard of the source, plus the
      length of the piece that is sliced. */
  function DateToken(name: string, logFile: string): (r: Option<string>)
    ensures r.Some? ==> |r.value| == 8
  {
    var n := Split(name, logFile);
    if |n| >= 2 && |n[1]| >= 9 && |n[|n| - 1]| >= 9 then Some(n[|n| - 1][1..9]) else None
  }

  /** Round trip: the sweep reads back the date of every name the writer
      builds, provided the base name does not occur again after its start. */
  lemma {:induction false} DateTokenRoundTrip(logFile: string, ext: string, date: string, withFlag: bool, clock: string)
    requires withFlag ==> |clock| >= 7
    requires |date| == 8
    requires !Contains(LogFileName([], ext, date, withFlag, clock), logFile)
    ensures DateToken(LogFileName(logFile, ext, date, withFlag, clock), logFile) == Some(date)
    ensures DateTokenAsWritten(LogFileName(logFile, ext, date, withFlag, clock), logFile) == Token(date)
  {
    var tail := LogFileName([], ext, date, withFlag, clock);
    BaseThenTail(logFile, ext, date, withFlag, clock);
    assert tail[1..9] == ("_" + date)[1..] == date;
    TokenAfterBase(logFile, tail);
  }

  /** Every generated name is the base name followed by the name generated
      for an empty base. */
  lemma {:induction false} BaseThenTail(logFile: string, ext: string, date: string, withFlag: bool, clock: string)
    requires withFlag ==> |clock| >= 7
    ensures LogFileName(logFile, ext, date, withFlag, clock) == logFile + LogFileName([], ext, date, withFlag, clock)
  {
    if withFlag {
      assert [] + "_" + date + "_" + StampDigits(clock) + ext == "_" + date + "_" + StampDigits(clock) + ext;
      assert logFile + "_" + date + "_" + StampDigits(clock) + ext == logFile + ("_" + date + "_" + StampDigits(clock) + ext);
    } else {
      assert [] + "_" + date + ext == "_" + date + ext;
      assert logFile + "_" + date + ext == logFile + ("_" + date + ext);
    }
  }

  /** Every generated name contains the base name. */
  lemma {:induction false} NameContainsBase(logFile: string, ext: string, date: string, withFlag: bool, clock: string)
    requires withFlag ==> |clock| >= 7
    ensures Contains(LogFileName(logFile, ext, date, withFlag, clock), logFile)
  {
    var name := LogFileName(logFile, ext, date, withFlag, clock);
    assert name[0..|logFile|] == logFile;
    OccurrenceContains(name, logFile, 0);
  }

  /** A name made of the base name and a tail free of it yields the bytes 1
      to 8 of the tail as its token. */
  lemma {:induction false} TokenAfterBase(logFile: string, t: string)
    requires !Contains(t, logFile) && |t| >= 9
    ensures DateToken(logFile + t, logFile) == Some(t[1..9])
    ensures DateTokenAsWritten(logFile + t, logFile) == Token(t[1..9])
  {
    SplitAfterLeadingSeparator(logFile, t);
  }

  /** A name the sweep crashes on: with the default base name `out`, a file
      called `checkout_service_timeout.log` in the log directory passes the
      guard but its last piece `.log` is too short to slice. The corrected
      guard skips it. */
  lemma {:induction false} SweepPanicsOnForeignName()
    ensures Contains("checkout_service_timeout.log", "out")
    ensures DateTokenAsWritten("checkout_service_timeout.log", "out") == Panic
    ensures DateToken("checkout_service_timeout.log", "out") == None
  {
    ForeignNameSplit();
    ForeignNamePieces();
    OccurrenceContains("checkout_service_timeout.log", "out", 5);
  }

  lemma {:induction false} ForeignNamePieces()
    ensures "checkout_service_timeout.log"[..5] == "check"
    ensures "checkout_service_timeout.log"[5..8] == "out"
    ensures "checkout_service_timeout.log"[8..] == "_service_timeout.log"
  {
    assert "checkout_service_timeout.log" == "check" + "out" + "_service_timeout.log";
  }

  lemma {:induction false} ForeignNameSplit()
    ensures Split("checkout_service_timeout.log", "out") == ["check", "_service_time", ".log"]
  {
    var name, parts := "checkout_service_timeout.log", "check" + "out" + ("_service_time" + "out" + ".log");
    ForeignNameParts();
    SkipMismatches(".log", "out", 0, 2);
    FieldsOfThree("check", "out", "_service_time", ".log");
    assert Fields(parts, "out") == ["check", "_service_time", ".log"];
    assert name == parts;
  }

  lemma {:induction false} ForeignNameParts()
    ensures "check" + "out" + ("_service_time" + "out" + ".log") == "checkout_service_timeout.log"
  {
    assert "_service_time" + "out" + ".log" == "_service_timeout.log";
    assert "check" + "out" + "_service_timeout.log" == "checkout_service_timeout.log";
  }

  /** With base name `log` and extension `.log`, the logger's own canonical
      name ends in the separator, so its last piece is empty: the sweep as
      written panics on it, and the corrected guard reads no token. */
  lemma {:induction false} OwnNameWithBaseInExtension()
    ensures Split("log_20261016.log", "log") == ["", "_20261016.", ""]
    ensures DateTokenAsWritten("log_20261016.log", "log") == Panic
    ensures DateToken("log_20261016.log", "log") == None
  {
    OwnNameSplit();
  }

  lemma {:induction false} OwnNameSplit()
    ensures Split("log_20261016.log", "log") == ["", "_20261016.", ""]
  {
    var name, parts := "log_20261016.log", [] + "log" + ("_20261016." + "log" + []);
    OwnNameParts();
    FieldsOfThree([], "log", "_20261016.", []);
    assert Fields(parts, "log") == ["", "_20261016.", ""];
    assert name == parts;
  }

  lemma {:induction false} OwnNameParts()
    ensures [] + "log" + ("_20261016." + "log" + []) == "log_20261016.log"
  {
    assert "_20261016." + "log" + [] == "_20261016.log";
  }

  /** Three pieces joined by the separator split back into those pieces when
      no byte of the first two starts the separator and the last does not
      contain it. */
  lemma {:induction false} FieldsOfThree(a: string, sep: string, m: string, l: string)
    requires sep != []
    requires sep[0] !in a && sep[0] !in m && IndexOf(l, sep) == None
    ensures Fields(a + sep + (m + sep + l), sep) == [a, m, l]
  {
    SplitWhole(l, sep);
    SplitAtFree(m, sep, l);
    SplitAtFree(a, sep, m + sep + l);
  }

  /** A split at a separator preceded only by bytes other than its first. */
  lemma {:induction false} SplitAtFree(a: string, sep: string, b: string)
    requires sep != [] && sep[0] !in a
    ensures Fields(a + sep + b, sep) == [a] + Fields(b, sep)
  {
    var s := a + sep + b;
    assert s[|a|..|a| + |sep|] == sep;
    assert forall j :: 0 <= j < |a| ==> s[j] == a[j];
    FirstOccurrence(s, sep, |a|);
    SplitAtFirst(s, sep, |a|);
    assert s[..|a|] == a;
    assert s[|a| + |sep|..] == b;
  }

  /** The first occurrence of `sub` is at `m` when it occurs there and no
      earlier byte matches the first byte of `sub`. */
  lemma {:induction false} FirstOccurrence(s: string, sub: string, m: nat)
    requires |sub| > 0 && m + |sub| <= |s| && s[m..m + |sub|] == sub
    requires forall j :: 0 <= j < m ==> s[j] != sub[0]
    ensures IndexOf(s, sub) == Some(m)
  {
    SkipMismatches(s, sub, 0, m);
  }

  /** The search skips positions whose byte differs from the first byte of
      `sub`. */
  lemma {:induction false} SkipMismatches(s: string, sub: string, k: nat, m: nat)
    requires |sub| > 0 && k <= m <= |s|
    requires forall j :: k <= j < m ==> s[j] != sub[0]
    ensures IndexFrom(s, sub, k) == IndexFrom(s, sub, m)
    decreases m - k
  {
    if k < m {
      if k + |sub| <= |s| {
        assert s[k..k + |sub|][0] == s[k];
      }
      SkipMismatches(s, sub, k + 1, m);
    }
  }

  /** The corrected guard changes nothing but the crash: it reads a token
      exactly where the sweep as written reads one, and the same token. */
  lemma {:induction false} CorrectedGuardAgrees(name: string, logFile: string)
    ensures DateToken(name, logFile).Some? <==> DateTokenAsWritten(name, logFile).Token?
    ensures DateToken(name, logFile).Some? ==> DateTokenAsWritten(name, logFile) == Token(DateToken(name, logFile).value)
    ensures DateTokenAsWritten(name, logFile) == Panic ==> DateToken(name, logFile) == None
  {
  }

  /** Calendar dates, as Go's `time` package checks them when parsing the
      `20060102` layout. */
  datatype Date = Date(year: int, month: int, day: int)

  predicate IsLeap(y: int)
  {
    y % 4 == 0 && (y % 100 != 0 || y % 400 == 0)
  }

  function DaysIn(year: int, month: int): int
  {
    if month == 2 then (if IsLeap(year) then 29 else 28)
    else if month == 4 || month == 6 || month == 9 || month == 11 then 30
    else 31
  }

  /** A date the `20060102` layout writes with four year digits. */
  predicate ValidDate(d: Date)
  {
    0 <= d.year < 10000 && 1 <= d.month <= 12 && 1 <= d.day <= DaysIn(d.year, d.month)
  }

  function DigitChar(n: int): char
    requires 0 <= n < 10
  {
    ('0' as int + n) as char
  }

  function Pad2(n: int): string
    requires 0 <= n < 100
  {
    [DigitChar(n / 10), DigitChar(n % 10)]
  }

  function Value2(s: string): int
    requires |s| == 2 && IsDigit(s[0]) && IsDigit(s[1])
  {
    (s[0] as int - '0' as int) * 10 + (s[1] as int - '0' as int)
  }

  /** `time.Format("20060102")`. */
  function FormatDate(d: Date): (r: string)
    requires ValidDate(d)
    ensures |r| == 8 && forall i :: 0 <= i < 8 ==> IsDigit(r[i])
  {
    Pad2(d.year / 100) + Pad2(d.year % 100) + Pad2(d.month) + Pad2(d.day)
  }

  /** `time.ParseInLocation("20060102", s)`: eight digits that name a day of
      the calendar, or nothing. */
  function ParseDate(s: string): (r: Option<Date>)
    ensures r.Some? ==> ValidDate(r.value)
  {
    if |s| == 8 && forall i :: 0 <= i < 8 ==> IsDigit(s[i]) then
      var d := Date(Value2(s[0..2]) * 100 + Value2(s[2..4]), Value2(s[4..6]), Value2(s[6..8]));
      if ValidDate(d) then Some(d) else None
    else None
  }

  lemma {:induction false} Pad2Value2(n: int)
    requires 0 <= n < 100
    ensures Value2(Pad2(n)) == n
  {
  }

  lemma {:induction false} Value2Pad2(s: string)
    requires |s| == 2 && IsDigit(s[0]) && IsDigit(s[1])
    ensures Pad2(Value2(s)) == s
  {
  }

  /** Parsing what the layout writes gives back the date. */
  lemma {:induction false} ParseFormatDate(d: Date)
    requires ValidDate(d)
    ensures ParseDate(FormatDate(d)) == Some(d)
  {
    var s := FormatDate(d);
    Pad2Value2(d.year / 100);
    Pad2Value2(d.year % 100);
    Pad2Value2(d.month);
    Pad2Value2(d.day);
    assert s[0..2] == Pad2(d.year / 100);
    assert s[2..4] == Pad2(d.year % 100);
    assert s[4..6] == Pad2(d.month);
    assert s[6..8] == Pad2(d.day);
  }

  /** A token that parses is exactly the layout's text of its date. */
  lemma {:induction false} FormatParseDate(s: string)
    requires ParseDate(s).Some?
    ensures FormatDate(ParseDate(s).value) == s
  {
    var d := ParseDate(s).value;
    var hi, lo := Value2(s[0..2]), Value2(s[2..4]);
    assert d.year / 100 == hi && d.year % 100 == lo;
    Value2Pad2(s[0..2]);
    Value2Pad2(s[2..4]);
    Value2Pad2(s[4..6]);
    Value2Pad2(s[6..8]);
    assert s == s[0..2] + s[2..4] + s[4..6] + s[6..8];
  }
}
