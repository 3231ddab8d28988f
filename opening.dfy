/** openLogFile: find today's canonical file, move it aside to a timestamped
    backup when the incoming record would push it past the size limit, and
    open (creating if needed) the canonical name for appending. */
module Opening {
  import opened Text
  import opened Config
  import opened Naming
  import opened Disk

  /** What openLogFile returns: the handle (nil when the open failed), the
      length the writer starts counting from, and whether an error is reported. */
  datatype Opened = Opened(handle: Option<FileHandle>, fileLen: int, err: bool)

  /** The rename rule: a size limit is set, the existing file is not empty,
      and the incoming record would take it past the limit. */
  predicate NeedsRename(maxSize: int, fileLen: int, dataLen: int): (r: bool)
    ensures maxSize <= 0 || fileLen <= 0 ==> !r
    ensures maxSize > 0 && fileLen > 0 && dataLen > 0 && fileLen >= maxSize ==> r
  {
    maxSize > 0 && fileLen > 0 && maxSize < dataLen + fileLen
  }

  /** Today's canonical file name. */
  function Canonical(cfg: Config, date: string): string
  {
    LogFileName(cfg.logFile, cfg.logExt, date, false, [])
  }

  /** The backup name a rotation at clock time `clock` renames to. */
  function Backup(cfg: Config, date: string, clock: string): string
    requires |clock| >= 7
  {
    LogFileName(cfg.logFile, cfg.logExt, date, true, clock)
  }

  /** The size `os.Stat` reports for the canonical file, 0 when it fails. */
  function StatSize(entries: map<string, Entry>, name: string): nat
  {
    if name in entries then Size(entries[name]) else 0
  }

  /** The directory and the result after openLogFile, with the failure of
      `os.OpenFile` reported as an error. `renameFails` and `openFails` say
      whether the system refuses the rename and the open. */
  function OpenSpec(entries: map<string, Entry>, cfg: Config, date: string, clock: string,
                    dataLen: int, renameFails: bool, openFails: bool): (r: (map<string, Entry>, Opened))
    requires |clock| >= 7
    ensures r.1.err <==> r.1.handle.None?
    ensures r.1.handle.Some? ==> r.1.handle.value == FileHandle(Canonical(cfg, date), true)
    ensures r.1.fileLen >= 0
  {
    var canonical := Canonical(cfg, date);
    var size := StatSize(entries, canonical);
    var renamed := NeedsRename(cfg.maxSize, size, dataLen) && !renameFails &&
                   CanRename(entries, canonical, Backup(cfg, date, clock));
    var moved := if renamed then Renamed(entries, canonical, Backup(cfg, date, clock)) else entries;
    var opens := !openFails && !(canonical in moved && moved[canonical].Dir?);
    var created := if opens && canonical !in moved then moved[canonical := File([])] else moved;
    (created, Opened(if opens then Some(FileHandle(canonical, true)) else None,
                     if renamed then 0 else size,
                     !opens))
  }

  /** openLogFile as written: the error of `os.OpenFile` is discarded and the
      function always returns a nil error, even with a nil handle. */
  function OpenSpecAsWritten(entries: map<string, Entry>, cfg: Config, date: string, clock: string,
                             dataLen: int, renameFails: bool, openFails: bool): (r: (map<string, Entry>, Opened))
    requires |clock| >= 7
    ensures !r.1.err
    ensures openFails ==> r.1.handle.None?
  {
    var (e, o) := OpenSpec(entries, cfg, date, clock, dataLen, renameFails, openFails);
    (e, o.(err := false))
  }

  /** openLogFile over the directory. `date` and `clock` are the current
      time in the `20060102` and `150405.000` layouts. */
  method OpenLogFile(dir: LogDirectory, cfg: Config, date: string, clock: string, dataLen: int,
                     renameFails: bool, openFails: bool)
    returns (handle: Option<FileHandle>, fileLen: int, err: bool)
    requires |clock| >= 7
    modifies dir
    ensures (dir.entries, Opened(handle, fileLen, err))
         == OpenSpec(old(dir.entries), cfg, date, clock, dataLen, renameFails, openFails)
  {
    var fileName := LogFileName(cfg.logFile, cfg.logExt, date, false, clock);
    var size, statOk := dir.Stat(fileName);
    if !statOk {
      fileLen := 0;
    } else {
      fileLen := size;
    }
    if cfg.maxSize > 0 && fileLen > 0 && cfg.maxSize < dataLen + fileLen {
      var renamed := dir.Rename(fileName, LogFileName(cfg.logFile, cfg.logExt, date, true, clock), renameFails);
      if renamed {
        fileLen := 0;
      }
    }
    handle := dir.OpenFile(fileName, openFails);
    err := handle.None?;
  }

  /** The length openLogFile returns is the size of the file its handle is
      on, and that file is today's canonical regular file: the writer's byte
      count starts out right. */
  lemma {:induction false} OpenStartsAtFileSize(entries: map<string, Entry>, cfg: Config, date: string, clock: string,
                                                dataLen: int, renameFails: bool, openFails: bool)
    requires |clock| >= 7
    ensures var (e, o) := OpenSpec(entries, cfg, date, clock, dataLen, renameFails, openFails);
      o.handle.Some? ==>
        o.handle.value == FileHandle(Canonical(cfg, date), true) &&
        Canonical(cfg, date) in e && e[Canonical(cfg, date)].File? &&
        |e[Canonical(cfg, date)].data| == o.fileLen
  {
    BackupDiffersFromCanonical(cfg.logFile, cfg.logExt, date, clock);
  }

  /** The rename rule and the returned length: after a successful rename the
      backup holds the old file and counting restarts at 0; otherwise (no
      rename due, or the rename refused, also because a directory holds the
      backup name) the canonical file is kept and its size is returned (0
      when absent). */
  lemma {:induction false} OpenRenameRule(entries: map<string, Entry>, cfg: Config, date: string, clock: string,
                                          dataLen: int, renameFails: bool, openFails: bool)
    requires |clock| >= 7
    ensures var (e, o) := OpenSpec(entries, cfg, date, clock, dataLen, renameFails, openFails);
      var canonical := Canonical(cfg, date);
      var size := StatSize(entries, canonical);
      var renames := NeedsRename(cfg.maxSize, size, dataLen) && !renameFails &&
                     CanRename(entries, canonical, Backup(cfg, date, clock));
      (renames ==>
         o.fileLen == 0 && Backup(cfg, date, clock) in e &&
         e[Backup(cfg, date, clock)] == entries[canonical] &&
         (o.handle.Some? ==> e[canonical] == File([]))) &&
      (!renames ==>
         o.fileLen == size &&
         (canonical in entries ==> canonical in e && e[canonical] == entries[canonical]))
  {
    BackupDiffersFromCanonical(cfg.logFile, cfg.logExt, date, clock);
  }

  /** With `LogMaxSize` 0 (or below) size never causes a rename: at most the
      canonical file is created, and nothing else in the directory changes. */
  lemma {:induction false} OpenUnboundedNeverRenames(entries: map<string, Entry>, cfg: Config, date: string, clock: string,
                                                     dataLen: int, renameFails: bool, openFails: bool)
    requires |clock| >= 7
    requires cfg.maxSize <= 0
    ensures var (e, o) := OpenSpec(entries, cfg, date, clock, dataLen, renameFails, openFails);
      o.fileLen == StatSize(entries, Canonical(cfg, date)) &&
      (forall n :: n in entries ==> n in e && e[n] == entries[n]) &&
      (forall n :: n in e ==> n in entries || n == Canonical(cfg, date))
  {
  }

  /** openLogFile touches at most the canonical and the backup name. */
  lemma {:induction false} OpenFrame(entries: map<string, Entry>, cfg: Config, date: string, clock: string,
                                     dataLen: int, renameFails: bool, openFails: bool, n: string)
    requires |clock| >= 7
    requires n != Canonical(cfg, date) && n != Backup(cfg, date, clock)
    ensures var (e, o) := OpenSpec(entries, cfg, date, clock, dataLen, renameFails, openFails);
      (n in e <==> n in entries) && (n in e ==> e[n] == entries[n])
  {
  }

  /** When `os.OpenFile` fails, the corrected openLogFile has no handle and
      reports an error; as written it reports none. */
  lemma {:induction false} OpenErrorReporting(entries: map<string, Entry>, cfg: Config, date: string, clock: string,
                                              dataLen: int, renameFails: bool)
    requires |clock| >= 7
    ensures OpenSpec(entries, cfg, date, clock, dataLen, renameFails, true).1.err
    ensures OpenSpec(entries, cfg, date, clock, dataLen, renameFails, true).1.handle.None?
    ensures !OpenSpecAsWritten(entries, cfg, date, clock, dataLen, renameFails, true).1.err
  {
  }
}
