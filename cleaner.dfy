/** cleanLogFile: the daily sweep that deletes log files older than the
    retention window. A file's age is the whole number of days between the
    midnight of the date in its name and now; the clock is the parameter
    `ageOf`. */
module Cleaner {
  import opened Text
  import opened Config
  import opened Naming
  import opened Disk

  /** The per-entry decision: a regular file whose name contains the base
      name and carries a date token that parses, at least `LogBackupLimit`
      days old. */
  predicate Expired(cfg: Config, name: string, e: Entry, ageOf: Date -> int): (r: bool)
    ensures r ==> e.File? && DateTokenAsWritten(name, cfg.logFile).Token?
  {
    e.File? && Contains(name, cfg.logFile) &&
    match DateToken(name, cfg.logFile)
    case None => false
    case Some(token) =>
      match ParseDate(token)
      case None => false
      case Some(d) => ageOf(d) >= cfg.backupLimit
  }

  /** The directory after a sweep. `listFails` says whether reading the
      directory fails; `removeFails` names the entries the system refuses to
      delete. A refused delete leaves that entry and the sweep goes on. */
  function Swept(cfg: Config, entries: map<string, Entry>, ageOf: Date -> int,
                 listFails: bool, removeFails: set<string>): (r: map<string, Entry>)
    ensures forall n :: n in r ==> n in entries && r[n] == entries[n]
    ensures cfg.backupLimit == 0 || listFails ==> r == entries
    ensures forall n :: n in entries && !Expired(cfg, n, entries[n], ageOf) ==> n in r
    ensures forall n :: n in entries && n in removeFails ==> n in r
    ensures cfg.backupLimit != 0 && !listFails ==>
      forall n :: n in entries && Expired(cfg, n, entries[n], ageOf) && n !in removeFails ==> n !in r
  {
    if cfg.backupLimit == 0 || listFails then entries
    else map n | n in entries && !(Expired(cfg, n, entries[n], ageOf) && n !in removeFails) :: entries[n]
  }

  /** cleanLogFile over the directory. The listing is read once; entries are
      visited one by one (the decision for one entry does not depend on the
      others, so the order `ReadDir` sorts them in does not matter). */
  method CleanLogFile(dir: LogDirectory, cfg: Config, ageOf: Date -> int, listFails: bool, removeFails: set<string>)
    modifies dir
    ensures dir.entries == Swept(cfg, old(dir.entries), ageOf, listFails, removeFails)
  {
    if cfg.backupLimit == 0 {
      return;
    }
    if listFails {
      return;
    }
    var listing := dir.entries;
    var todo := listing.Keys;
    while todo != {}
      invariant todo <= listing.Keys
      invariant dir.entries ==
        map n | n in listing && (n in todo || !(Expired(cfg, n, listing[n], ageOf) && n !in removeFails)) :: listing[n]
      decreases todo
    {
      var name :| name in todo;
      var fi := listing[name];
      if fi.Dir? {
        // do nothing
      } else if Contains(name, cfg.logFile) {
        var n := Split(name, cfg.logFile);
        if |n| >= 2 && |n[1]| >= 9 && |n[|n| - 1]| >= 9 {
          var dateStr := n[|n| - 1][1..9];
          assert DateToken(name, cfg.logFile) == Some(dateStr);
          var parsed := ParseDate(dateStr);
          if parsed.Some? && ageOf(parsed.value) >= cfg.backupLimit {
            assert Expired(cfg, name, fi, ageOf);
            var ok := dir.Remove(name, name in removeFails);
            // a failed delete is only printed
          }
        }
      }
      todo := todo - {name};
    }
  }

  /** The decision on a name the writer builds: it expires exactly when the
      date it carries is at least `LogBackupLimit` days old. */
  lemma {:induction false} GeneratedNameExpiry(cfg: Config, name: string, data: string, ageOf: Date -> int,
                                               d: Date, withFlag: bool, clock: string)
    requires ValidDate(d) && (withFlag ==> |clock| >= 7)
    requires !Contains(LogFileName([], cfg.logExt, FormatDate(d), withFlag, clock), cfg.logFile)
    requires name == LogFileName(cfg.logFile, cfg.logExt, FormatDate(d), withFlag, clock)
    ensures Expired(cfg, name, File(data), ageOf) <==> ageOf(d) >= cfg.backupLimit
  {
    DateTokenRoundTrip(cfg.logFile, cfg.logExt, FormatDate(d), withFlag, clock);
    NameContainsBase(cfg.logFile, cfg.logExt, FormatDate(d), withFlag, clock);
    ExpiryByToken(cfg, name, data, ageOf, d);
  }

  /** A file whose name holds the base name and the token of a date `d`
      expires exactly when `d` is at least `LogBackupLimit` days old. */
  lemma {:induction false} ExpiryByToken(cfg: Config, name: string, data: string, ageOf: Date -> int, d: Date)
    requires ValidDate(d) && Contains(name, cfg.logFile) && DateToken(name, cfg.logFile) == Some(FormatDate(d))
    ensures Expired(cfg, name, File(data), ageOf) <==> ageOf(d) >= cfg.backupLimit
  {
    ParseFormatDate(d);
  }

  /** Retention for the files the writer creates: a canonical or backup file
      dated `d` is deleted exactly when it is at least `LogBackupLimit` days
      old, the limit is not 0, the listing succeeds and the delete is not
      refused. */
  lemma {:induction false} RetentionOfLogFiles(cfg: Config, entries: map<string, Entry>, ageOf: Date -> int,
                                               listFails: bool, removeFails: set<string>,
                                               name: string, d: Date, withFlag: bool, clock: string)
    requires ValidDate(d) && (withFlag ==> |clock| >= 7)
    requires !Contains(LogFileName([], cfg.logExt, FormatDate(d), withFlag, clock), cfg.logFile)
    requires name == LogFileName(cfg.logFile, cfg.logExt, FormatDate(d), withFlag, clock)
    requires name in entries && entries[name].File?
    ensures name !in Swept(cfg, entries, ageOf, listFails, removeFails)
      <==> cfg.backupLimit != 0 && !listFails && ageOf(d) >= cfg.backupLimit && name !in removeFails
  {
    GeneratedNameExpiry(cfg, name, entries[name].data, ageOf, d, withFlag, clock);
  }

  /** The sweep never deletes a directory, nor a name without the base name
      in it, nor a name whose date token does not parse. */
  lemma {:induction false} SweepSkips(cfg: Config, entries: map<string, Entry>, ageOf: Date -> int,
                                      listFails: bool, removeFails: set<string>, name: string)
    requires name in entries
    requires entries[name].Dir? || !Contains(name, cfg.logFile) ||
             DateToken(name, cfg.logFile).None? || ParseDate(DateToken(name, cfg.logFile).value).None?
    ensures name in Swept(cfg, entries, ageOf, listFails, removeFails)
  {
  }

  /** A refused delete does not stop the sweep: what happens to an entry the
      system would let go does not depend on which other deletes it refuses. */
  lemma {:induction false} FailedDeleteDoesNotStopSweep(cfg: Config, entries: map<string, Entry>, ageOf: Date -> int,
                                                        listFails: bool, removeFails: set<string>, name: string)
    requires name in entries && name !in removeFails
    ensures name in Swept(cfg, entries, ageOf, listFails, removeFails) <==> name in Swept(cfg, entries, ageOf, listFails, {})
  {
  }

  /** The sweep as written crashes the process when it gets to read the
      directory and the directory holds a regular file whose name passes the
      guard on the second piece but whose last piece is too short to slice. */
  predicate CrashesAsWritten(cfg: Config, entries: map<string, Entry>, listFails: bool): (r: bool)
    ensures r ==> cfg.backupLimit != 0 && !listFails
    ensures r ==> exists n :: n in entries && entries[n].File? && DateTokenAsWritten(n, cfg.logFile) == Panic
  {
    cfg.backupLimit != 0 && !listFails &&
    exists n :: n in entries && entries[n].File? && Contains(n, cfg.logFile) &&
                DateTokenAsWritten(n, cfg.logFile) == Panic
  }

  /** With the default settings, one unrelated file in the log directory is
      enough to crash the sweep as written; the corrected sweep keeps it. */
  lemma {:induction false} DefaultSweepCrashesAsWritten(entries: map<string, Entry>, ageOf: Date -> int,
                                                        listFails: bool, removeFails: set<string>)
    requires "checkout_service_timeout.log" in entries
    requires entries["checkout_service_timeout.log"].File?
    ensures CrashesAsWritten(Defaults, entries, listFails) <==> !listFails
    ensures "checkout_service_timeout.log" in Swept(Defaults, entries, ageOf, listFails, removeFails)
  {
    SweepPanicsOnForeignName();
    assert Defaults.logFile == "out";
  }
}
