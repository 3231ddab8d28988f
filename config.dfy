/** The logger's process-wide settings and its four severity levels. */
module Config {

  /** The four emit operations, one per severity. */
  datatype Level = Debug | Warning | Info | Error

  /** LOGLEVEL is a Go `int`, 64 bits wide on the platforms the logger targets. */
  type Mask = bv64

  const LogLevelDebug: Mask := 1
  const LogLevelWarning: Mask := 2
  const LogLevelInfo: Mask := 4
  const LogLevelError: Mask := 8
  const LogLevelAll: Mask := 15

  /** The bit a level is gated on. */
  function Bit(lv: Level): Mask
  {
    match lv
    case Debug => LogLevelDebug
    case Warning => LogLevelWarning
    case Info => LogLevelInfo
    case Error => LogLevelError
  }

  /** The tag written into every record of a level. */
  function Tag(lv: Level): string
  {
    match lv
    case Debug => "[DEBUG]"
    case Warning => "[WARNING]"
    case Info => "[INFO]"
    case Error => "[ERROR]"
  }

  /** The level gate: `LogLevel & bit > 0`. The bit is positive, so on the
      signed Go integer the test is the same as "the bit is set". */
  predicate Enabled(mask: Mask, lv: Level): (r: bool)
    ensures r <==> mask & Bit(lv) != 0
  {
    mask & Bit(lv) > 0
  }

  /** The settings the writer and the cleanup sweep read. `logPath` is the
      log directory; the writer and the sweep read it after `getLogPath` has
      filled it in. */
  datatype Config = Config(
    logFile: string,
    logPath: string,
    logExt: string,
    maxSize: int,
    backupLimit: int,
    level: Mask,
    noFileOutput: bool)

  /** The defaults: `out`, `.log`, 5 MiB files, 30 days, every level, file
      output on. `logPath` is `""`, the value before `getLogPath` replaces it
      with the system's default directory. */
  const Defaults: Config := Config("out", "", ".log", 1024 * 5 * 1024, 30, LogLevelAll, false)

  /** Each level is gated on its own bit alone: a mask holding only the bit of
      `a` lets through `a` and nothing else. */
  lemma GateIsPerLevel(a: Level, b: Level)
    ensures Enabled(Bit(a), b) <==> a == b
  {
  }

  /** Combining masks with `|` enables the union of their levels. */
  lemma GateOfUnion(m1: Mask, m2: Mask, lv: Level)
    ensures Enabled(m1 | m2, lv) <==> Enabled(m1, lv) || Enabled(m2, lv)
  {
    UnionBits(m1, m2);
    var b := Bit(lv);
    assert b == 1 || b == 2 || b == 4 || b == 8;
  }

  /** Each level's bit is set in `m1 | m2` iff it is set in `m1` or in `m2`. */
  lemma UnionBits(m1: Mask, m2: Mask)
    ensures (m1 | m2) & 1 > 0 <==> m1 & 1 > 0 || m2 & 1 > 0
    ensures (m1 | m2) & 2 > 0 <==> m1 & 2 > 0 || m2 & 2 > 0
    ensures (m1 | m2) & 4 > 0 <==> m1 & 4 > 0 || m2 & 4 > 0
    ensures (m1 | m2) & 8 > 0 <==> m1 & 8 > 0 || m2 & 8 > 0
  {
  }

  /** `LogLevel_ALL` lets every level through; a zero mask lets none. */
  lemma GateAllAndNone(lv: Level)
    ensures Enabled(LogLevelAll, lv)
    ensures !Enabled(0, lv)
  {
    var all: Mask, none: Mask := 15, 0;
    match lv
    case Debug => assert all & 1 == 1 && none & 1 == 0;
    case Warning => assert all & 2 == 2 && none & 2 == 0;
    case Info => assert all & 4 == 4 && none & 4 == 0;
    case Error => assert all & 8 == 8 && none & 8 == 0;
  }
}
