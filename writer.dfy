/** goWriter: the single consumer that owns the log file. Its two `select`
    arms are the two events `OnRecord` (a record arrives on the channel) and
    `OnTimer` (the midnight timer fires); the cleanup goroutine's completion
    is the third event, `OnCleanupFinished`. */
module Writer {
  import opened Text
  import opened Config
  import opened Naming
  import opened Disk
  import opened Records
  import opened Opening

  /** The loop's local state: `logFileOpenedFlag`, `fileHandler`,
      `fileLength` and `lastCleanFinished`. */
  datatype WriterState = WriterState(fileOpened: bool, handle: Option<FileHandle>, fileLength: int, lastCleanFinished: bool)

  /** The state goWriter starts in. */
  const Initial := WriterState(false, None, 0, true)

  /** Whether the system refuses the rename, the open and the write of one
      record event. */
  datatype Faults = Faults(renameFails: bool, openFails: bool, writeFails: bool)

  const NoFaults := Faults(false, false, false)

  /** The rotation rule: no file is open, or a size limit is set and the
      record would take the file past it. */
  predicate NeedsRotation(fileOpened: bool, fileLength: int, recLength: int, maxSize: int): (r: bool)
    ensures !fileOpened ==> r
    ensures maxSize <= 0 ==> (r <==> !fileOpened)
  {
    !fileOpened || (maxSize > 0 && maxSize < fileLength + recLength)
  }

  /** `filepath.Join(LogPath, name)`, the name an open handle reports. */
  function FullPath(dir: string, name: string): string
  {
    if dir == [] then name else dir + "/" + name
  }

  /** The flag and handle after an open: the flag is set exactly when no
      error is reported. */
  function AfterOpen(st: WriterState, o: Opened): WriterState
  {
    st.(fileOpened := !o.err, handle := o.handle, fileLength := o.fileLen)
  }

  /** First half of a record event: rotate when the rule says so. */
  function Rotate(cfg: Config, st: WriterState, entries: map<string, Entry>, rec: LogRecord,
                  date: string, clock: string, f: Faults): (map<string, Entry>, WriterState)
    requires |clock| >= 7
  {
    if NeedsRotation(st.fileOpened, st.fileLength, rec.length, cfg.maxSize) then
      var (e, o) := OpenSpec(entries, cfg, date, clock, rec.length, f.renameFails, f.openFails);
      (e, AfterOpen(st, o))
    else (entries, st)
  }

  /** Second half: write through the handle, counting the record's length
      only when the write succeeds. */
  function Append(st: WriterState, entries: map<string, Entry>, rec: LogRecord, writeFails: bool): (map<string, Entry>, WriterState)
  {
    if st.handle.Some? && st.handle.value.isOpen && !writeFails then
      (Appended(entries, st.handle.value.name, rec.msg), st.(fileLength := st.fileLength + rec.length))
    else (entries, st)
  }

  /** The record arm of the loop. */
  function RecordStep(cfg: Config, st: WriterState, entries: map<string, Entry>, rec: LogRecord,
                      date: string, clock: string, f: Faults): (r: (map<string, Entry>, WriterState))
    requires |clock| >= 7
    ensures r.1.lastCleanFinished == st.lastCleanFinished
    ensures !NeedsRotation(st.fileOpened, st.fileLength, rec.length, cfg.maxSize) ==>
      r.1.handle == st.handle && r.1.fileOpened == st.fileOpened
  {
    var (e, s) := Rotate(cfg, st, entries, rec, date, clock, f);
    Append(s, e, rec, f.writeFails)
  }

  /** The handle's name lacks today's date token. */
  predicate Stale(cfg: Config, h: FileHandle, today: string)
  {
    !Contains(FullPath(cfg.logPath, h.name), "_" + today)
  }

  /** The timer arm of the loop: close a handle whose name lacks today's
      token, and start a cleanup unless the previous one is still running.
      The second component says whether a cleanup starts. */
  function TimerStep(cfg: Config, st: WriterState, today: string): (r: (WriterState, bool))
    ensures r.0.handle.Some? <==> st.handle.Some?
    ensures r.0.handle.Some? ==> r.0.handle.value.name == st.handle.value.name
  {
    var s := if st.handle.Some? && Stale(cfg, st.handle.value, today)
             then st.(handle := Some(st.handle.value.(isOpen := false)), fileOpened := false)
             else st;
    if s.lastCleanFinished then (s.(lastCleanFinished := false), true) else (s, false)
  }

  /** The flag is set only while an open handle is held. */
  predicate Valid(st: WriterState)
  {
    st.fileOpened ==> st.handle.Some? && st.handle.value.isOpen
  }

  /** `fileLength` is the size of the file the open handle writes to, while
      that file is in the directory. */
  predicate Tracks(st: WriterState, entries: map<string, Entry>)
  {
    st.handle.Some? && st.handle.value.isOpen && st.handle.value.name in entries &&
    entries[st.handle.value.name].File? ==>
      st.fileLength == |entries[st.handle.value.name].data|
  }

  /** A record event keeps the flag honest and the byte count exact, for
      every outcome of the system calls. */
  lemma {:induction false} RecordStepKeepsInvariant(cfg: Config, st: WriterState, entries: map<string, Entry>,
                                                    rec: LogRecord, date: string, clock: string, f: Faults)
    requires |clock| >= 7
    requires Valid(st) && Tracks(st, entries) && WellFormed(rec)
    ensures Valid(RecordStep(cfg, st, entries, rec, date, clock, f).1)
    ensures Tracks(RecordStep(cfg, st, entries, rec, date, clock, f).1, RecordStep(cfg, st, entries, rec, date, clock, f).0)
  {
    var (e, s) := Rotate(cfg, st, entries, rec, date, clock, f);
    if NeedsRotation(st.fileOpened, st.fileLength, rec.length, cfg.maxSize) {
      OpenStartsAtFileSize(entries, cfg, date, clock, rec.length, f.renameFails, f.openFails);
    }
    assert Valid(s) && Tracks(s, e);
  }

  /** A timer event keeps both invariants: it only closes the handle. */
  lemma {:induction false} TimerStepKeepsInvariant(cfg: Config, st: WriterState, entries: map<string, Entry>, today: string)
    requires Valid(st) && Tracks(st, entries)
    ensures Valid(TimerStep(cfg, st, today).0) && Tracks(TimerStep(cfg, st, today).0, entries)
  {
  }

  /** A cleanup only removes entries, which keeps the byte count exact. */
  lemma {:induction false} RemovalKeepsTracks(st: WriterState, entries: map<string, Entry>, after: map<string, Entry>)
    requires Tracks(st, entries)
    requires forall n :: n in after ==> n in entries && after[n] == entries[n]
    ensures Tracks(st, after)
  {
  }

  /** Length accounting: `fileLength` grows by exactly the record's length
      when the write succeeds; when it fails, or no handle is open, the
      event does nothing beyond the rotation. */
  lemma {:induction false} RecordAccounting(cfg: Config, st: WriterState, entries: map<string, Entry>,
                                            rec: LogRecord, date: string, clock: string, f: Faults)
    requires |clock| >= 7
    ensures var (e, s) := Rotate(cfg, st, entries, rec, date, clock, f);
      var (e', s') := RecordStep(cfg, st, entries, rec, date, clock, f);
      (s.handle.Some? && s.handle.value.isOpen && !f.writeFails ==>
         s'.fileLength == s.fileLength + rec.length && s'.handle == s.handle &&
         e' == Appended(e, s.handle.value.name, rec.msg)) &&
      (!(s.handle.Some? && s.handle.value.isOpen) || f.writeFails ==> s' == s && e' == e)
  {
  }

  /** Without rotation the event writes through the same handle; with
      `LogMaxSize` 0 an open file is never rotated for size. */
  lemma {:induction false} UnboundedKeepsFile(cfg: Config, st: WriterState, entries: map<string, Entry>,
                                              rec: LogRecord, date: string, clock: string, f: Faults)
    requires |clock| >= 7
    requires cfg.maxSize <= 0 && st.fileOpened
    ensures RecordStep(cfg, st, entries, rec, date, clock, f).1.handle == st.handle
    ensures RecordStep(cfg, st, entries, rec, date, clock, f).1.fileOpened
  {
  }

  /** The size limit holds: when no system call fails, the file the writer
      holds after a record event is within `LogMaxSize`, or holds only that
      record (a record larger than the limit still gets written). */
  lemma {:induction false} SizeLimitRespected(cfg: Config, st: WriterState, entries: map<string, Entry>,
                                              rec: LogRecord, date: string, clock: string)
    requires |clock| >= 7
    requires cfg.maxSize > 0 && Valid(st) && Tracks(st, entries) && WellFormed(rec)
    requires !(Backup(cfg, date, clock) in entries && entries[Backup(cfg, date, clock)].Dir?)
    ensures var (e', s') := RecordStep(cfg, st, entries, rec, date, clock, NoFaults);
      s'.handle.Some? && s'.handle.value.isOpen ==>
        s'.fileLength <= cfg.maxSize || s'.fileLength == rec.length
  {
    var (e, s) := Rotate(cfg, st, entries, rec, date, clock, NoFaults);
    if NeedsRotation(st.fileOpened, st.fileLength, rec.length, cfg.maxSize) {
      OpenRenameRule(entries, cfg, date, clock, rec.length, false, false);
    }
  }

  /** Date rollover: when the midnight timer finds the open file's name
      without the new date, the next record (with no failing system call)
      is written to the new day's canonical file, and the next timer of that
      day leaves it open. */
  lemma {:induction false} Rollover(cfg: Config, st: WriterState, entries: map<string, Entry>,
                                    rec: LogRecord, today: string, clock: string)
    requires |clock| >= 7
    requires Valid(st) && st.handle.Some? && Stale(cfg, st.handle.value, today)
    requires !(Canonical(cfg, today) in entries && entries[Canonical(cfg, today)].Dir?)
    ensures var (s1, _) := TimerStep(cfg, st, today);
      var (e2, s2) := RecordStep(cfg, s1, entries, rec, today, clock, NoFaults);
      !s1.fileOpened &&
      s2.fileOpened && s2.handle == Some(FileHandle(Canonical(cfg, today), true)) &&
      !Stale(cfg, s2.handle.value, today)
  {
    var (s1, _) := TimerStep(cfg, st, today);
    OpenRenameRule(entries, cfg, today, clock, rec.length, false, false);
    OpenStartsAtFileSize(entries, cfg, today, clock, rec.length, false, false);
    var name := Canonical(cfg, today);
    assert name == cfg.logFile + ("_" + today) + cfg.logExt;
    if cfg.logPath == [] {
      ContainsMiddle(cfg.logFile, "_" + today, cfg.logExt);
    } else {
      assert FullPath(cfg.logPath, name) == (cfg.logPath + "/" + cfg.logFile) + ("_" + today) + cfg.logExt;
      ContainsMiddle(cfg.logPath + "/" + cfg.logFile, "_" + today, cfg.logExt);
    }
  }

  /** The timer starts a cleanup exactly when the previous one has finished,
      and closes the handle exactly when its name is stale. */
  lemma {:induction false} TimerRules(cfg: Config, st: WriterState, today: string)
    ensures TimerStep(cfg, st, today).1 <==> st.lastCleanFinished
    ensures !TimerStep(cfg, st, today).0.lastCleanFinished
    ensures TimerStep(cfg, st, today).0.fileLength == st.fileLength
    ensures st.handle.Some? ==>
      (!TimerStep(cfg, st, today).0.handle.value.isOpen <==> Stale(cfg, st.handle.value, today) || !st.handle.value.isOpen)
    ensures st.handle.Some? && !Stale(cfg, st.handle.value, today) ==>
      TimerStep(cfg, st, today).0.fileOpened == st.fileOpened
  {
  }

  /** As written, a failed `os.OpenFile` leaves the flag set with a nil
      handle. From there every record that does not itself exceed the size
      limit is dropped without another attempt to open, and the timer cannot
      clear the flag, since it only looks at a non-nil handle. */
  lemma {:induction false} StuckAfterFailedOpenAsWritten(cfg: Config, st: WriterState, entries: map<string, Entry>,
                                                         rec: LogRecord, date: string, clock: string, f: Faults,
                                                         next: LogRecord, date2: string, today: string)
    requires |clock| >= 7
    requires f.openFails
    requires !(cfg.maxSize > 0 && cfg.maxSize < OpenSpecAsWritten(entries, cfg, date, clock, rec.length, f.renameFails, true).1.fileLen + next.length)
    ensures var (e, o) := OpenSpecAsWritten(entries, cfg, date, clock, rec.length, f.renameFails, f.openFails);
      var s := AfterOpen(st, o);
      s.fileOpened && s.handle.None? &&
      RecordStep(cfg, s, e, next, date2, clock, NoFaults) == (e, s) &&
      TimerStep(cfg, s, today).0.fileOpened
  {
  }

  /** Corrected: after an open that fails the flag is clear, so the next record
      tries again and, if the system now lets it, opens the canonical file. */
  lemma {:induction false} RetryAfterFailedOpen(cfg: Config, st: WriterState, entries: map<string, Entry>,
                                                rec: LogRecord, date: string, clock: string, f: Faults,
                                                next: LogRecord)
    requires |clock| >= 7
    requires f.openFails && NeedsRotation(st.fileOpened, st.fileLength, rec.length, cfg.maxSize)
    ensures var (e, s) := RecordStep(cfg, st, entries, rec, date, clock, f);
      !s.fileOpened && s.handle.None? &&
      (!(Canonical(cfg, date) in e && e[Canonical(cfg, date)].Dir?) ==>
         RecordStep(cfg, s, e, next, date, clock, NoFaults).1.handle == Some(FileHandle(Canonical(cfg, date), true)))
  {
    var (e, s) := RecordStep(cfg, st, entries, rec, date, clock, f);
    OpenStartsAtFileSize(e, cfg, date, clock, next.length, false, false);
  }

  /** The writer goroutine's state, owned by it alone. */
  class Writer {
    const cfg: Config
    const dir: LogDirectory
    var logFileOpenedFlag: bool
    var fileHandler: Option<FileHandle>
    var fileLength: int
    var lastCleanFinished: bool

    function State(): WriterState
      reads this
    {
      WriterState(logFileOpenedFlag, fileHandler, fileLength, lastCleanFinished)
    }

    /** The flag is honest and the byte count exact. */
    ghost predicate Inv()
      reads this, dir
    {
      Valid(State()) && Tracks(State(), dir.entries)
    }

    constructor (cfg: Config, dir: LogDirectory)
      ensures this.cfg == cfg && this.dir == dir
      ensures State() == Initial && Inv()
    {
      this.cfg := cfg;
      this.dir := dir;
      lastCleanFinished := true;
      logFileOpenedFlag := false;
      fileHandler := None;
      fileLength := 0;
    }

    /** A record arrives: rotate if needed, then write it. `date` and `clock`
        are the current time in the `20060102` and `150405.000` layouts. */
    method OnRecord(info: LogRecord, date: string, clock: string, f: Faults)
      requires Inv() && WellFormed(info) && |clock| >= 7
      modifies this, dir
      ensures (dir.entries, State()) == RecordStep(cfg, old(State()), old(dir.entries), info, date, clock, f)
      ensures Inv()
    {
      ghost var st, entries := State(), dir.entries;
      RotateIfNeeded(info, date, clock, f);
      WriteRecord(info, f.writeFails);
      RecordStepKeepsInvariant(cfg, st, entries, info, date, clock, f);
    }

    /** The first half of the record arm: close the old handle and open a
        new one when the rotation rule says so. */
    method RotateIfNeeded(info: LogRecord, date: string, clock: string, f: Faults)
      requires |clock| >= 7
      modifies this, dir
      ensures (dir.entries, State()) == Rotate(cfg, old(State()), old(dir.entries), info, date, clock, f)
    {
      if !logFileOpenedFlag || (cfg.maxSize > 0 && cfg.maxSize < fileLength + info.length) {
        // a close error of the old handle is only printed
        var h, len, err := OpenLogFile(dir, cfg, date, clock, info.length, f.renameFails, f.openFails);
        fileHandler, fileLength := h, len;
        if err {
          logFileOpenedFlag := false;
        } else {
          logFileOpenedFlag := true;
        }
      }
    }

    /** The second half: write through the handle and count the bytes when
        the write succeeds. */
    method WriteRecord(info: LogRecord, writeFails: bool)
      modifies this, dir
      ensures (dir.entries, State()) == Append(old(State()), old(dir.entries), info, writeFails)
    {
      if fileHandler.Some? {
        var ok := dir.Write(fileHandler.value, info.msg, writeFails);
        if ok {
          fileLength := fileLength + info.length;
        }
      }
    }

    /** The midnight timer fires; `today` is the new date in the `20060102`
        layout. Returns whether a cleanup goroutine is started. */
    method OnTimer(today: string) returns (startCleanup: bool)
      requires Inv()
      modifies this
      ensures (State(), startCleanup) == TimerStep(cfg, old(State()), today)
      ensures Inv()
    {
      ghost var st := State();
      if fileHandler.Some? {
        if !Contains(FullPath(cfg.logPath, fileHandler.value.name), "_" + today) {
          // a close error is only printed
          fileHandler := Some(fileHandler.value.(isOpen := false));
          logFileOpenedFlag := false;
        }
      }
      startCleanup := false;
      if lastCleanFinished {
        lastCleanFinished := false;
        startCleanup := true;
      }
      TimerStepKeepsInvariant(cfg, st, dir.entries, today);
    }

    /** The cleanup goroutine finishes. */
    method OnCleanupFinished()
      requires Inv()
      modifies this
      ensures State() == old(State()).(lastCleanFinished := true)
      ensures Inv()
    {
      lastCleanFinished := true;
    }
  }
}
