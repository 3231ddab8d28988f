/** The producer side: the level gates `Info`/`Warning`/`Error`/`Debug` and
    `writeLog`, which formats a record, queues it for the writer and echoes
    it to standard output. */
module Records {
  import opened Config

  /** logInfo: the formatted bytes and the length the writer accounts with. */
  datatype LogRecord = LogRecord(msg: string, length: int)

  /** The length a record carries is its byte count. */
  predicate WellFormed(r: LogRecord)
  {
    r.length == |r.msg|
  }

  /** Everything before the message: the timestamp text (`stamp`, which the
      `2006-01-02 15:04:05.000000 ` layout ends with a space), the level tag
      and one space. */
  function Header(stamp: string, tag: string): string
  {
    stamp + tag + " "
  }

  /** The bytes `writeLog` assembles. The message must be non-empty: the
      source reads its last byte. */
  function Format(stamp: string, tag: string, info: string): (r: string)
    requires |info| > 0
    ensures |Header(stamp, tag)| + |info| <= |r| <= |Header(stamp, tag)| + |info| + 1
    ensures r[..|Header(stamp, tag)|] == Header(stamp, tag)
    ensures r[|Header(stamp, tag)|..|Header(stamp, tag)| + |info|] == info
    ensures r[|r| - 1] == '\n'
    ensures |r| == |Header(stamp, tag)| + |info| <==> info[|info| - 1] == '\n'
  {
    if info[|info| - 1] != '\n' then Header(stamp, tag) + info + "\n"
    else Header(stamp, tag) + info
  }

  /** The number of newline bytes a string ends with. */
  function TrailingNewlines(s: string): (n: nat)
    ensures n <= |s|
  {
    if |s| > 0 && s[|s| - 1] == '\n' then 1 + TrailingNewlines(s[..|s| - 1]) else 0
  }

  /** A record ends in exactly one newline more than the message when the
      message has none, and in exactly as many as the message otherwise: the
      formatter never doubles a newline and never leaves one out. */
  lemma {:induction false} FormatNewlines(stamp: string, tag: string, info: string)
    requires |info| > 0
    ensures TrailingNewlines(Format(stamp, tag, info)) ==
      if TrailingNewlines(info) == 0 then 1 else TrailingNewlines(info)
  {
    var h := Header(stamp, tag);
    if info[|info| - 1] != '\n' {
      var r := h + info + "\n";
      assert r[..|r| - 1] == h + info;
      AppendAfterNonNewline(h, info);
    } else {
      AppendAfterNonNewline(h, info);
    }
  }

  /** Prefixing a string that ends in a space does not change its trailing
      newlines, as long as the message itself is not all newlines; when it
      is, the space stops the count. */
  lemma {:induction false} AppendAfterNonNewline(h: string, s: string)
    requires |h| > 0 && h[|h| - 1] == ' '
    ensures TrailingNewlines(h + s) == TrailingNewlines(s)
    decreases |s|
  {
    if |s| == 0 {
      assert h + s == h;
    } else if s[|s| - 1] == '\n' {
      assert (h + s)[..|h + s| - 1] == h + s[..|s| - 1];
      AppendAfterNonNewline(h, s[..|s| - 1]);
    }
  }

  /** What one emit call hands to the writer: one well-formed record holding
      the formatted text when the level is enabled and file output is on,
      nothing otherwise. */
  function Queued(cfg: Config, lv: Level, stamp: string, info: string): (q: seq<LogRecord>)
    requires Enabled(cfg.level, lv) ==> |info| > 0
    ensures |q| <= 1
    ensures q == [] <==> !Enabled(cfg.level, lv) || cfg.noFileOutput
    ensures q != [] ==> WellFormed(q[0]) && q[0].msg == Format(stamp, Tag(lv), info)
  {
    if Enabled(cfg.level, lv) && !cfg.noFileOutput then
      var m := Format(stamp, Tag(lv), info);
      [LogRecord(m, |m|)]
    else []
  }

  /** What one emit call writes to standard output. */
  function Echoed(cfg: Config, lv: Level, stamp: string, info: string): (o: seq<string>)
    requires Enabled(cfg.level, lv) ==> |info| > 0
    ensures |o| <= 1
    ensures o == [] <==> !Enabled(cfg.level, lv)
    ensures o != [] ==> o[0] == Format(stamp, Tag(lv), info)
  {
    if Enabled(cfg.level, lv) then [Format(stamp, Tag(lv), info)] else []
  }

  /** The producer-side state: the channel to the writer (its capacity and
      blocking are not modelled) and standard output. */
  class Logger {
    const cfg: Config
    var queue: seq<LogRecord>
    var console: seq<string>

    constructor (cfg: Config)
      ensures this.cfg == cfg && queue == [] && console == []
    {
      this.cfg := cfg;
      queue := [];
      console := [];
    }

    /** `Info`, `Warning`, `Error` and `Debug`: a disabled level costs only the
        mask test and changes nothing. */
    method Emit(lv: Level, stamp: string, info: string)
      requires Enabled(cfg.level, lv) ==> |info| > 0
      modifies this
      ensures queue == old(queue) + Queued(cfg, lv, stamp, info)
      ensures console == old(console) + Echoed(cfg, lv, stamp, info)
    {
      if Enabled(cfg.level, lv) {
        WriteLog(Tag(lv), stamp, info);
      } else {
        assert Queued(cfg, lv, stamp, info) == [] && Echoed(cfg, lv, stamp, info) == [];
      }
    }

    /** writeLog: builds the record in a buffer, queues it unless output goes
        to the console only, and echoes it. */
    method WriteLog(tag: string, stamp: string, info: string)
      requires |info| > 0
      modifies this
      ensures console == old(console) + [Format(stamp, tag, info)]
      ensures !cfg.noFileOutput ==>
        queue == old(queue) + [LogRecord(Format(stamp, tag, info), |Format(stamp, tag, info)|)]
      ensures cfg.noFileOutput ==> queue == old(queue)
    {
      var buffer: string := [];
      buffer := buffer + stamp;
      buffer := buffer + tag;
      buffer := buffer + " ";
      buffer := buffer + info;
      assert buffer == Header(stamp, tag) + info;
      if info[|info| - 1] != '\n' {
        buffer := buffer + "\n";
      }
      var li := LogRecord(buffer, |buffer|);
      if !cfg.noFileOutput {
        queue := queue + [li];
      }
      console := console + [buffer];
    }
  }
}
