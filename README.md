# MyLog in Dafny

A model of MyLog, a small asynchronous file logger for Go. Callers emit
messages at four severities. Each severity is gated by a bit mask. An
enabled message is formatted into a record, queued for a single writer and
echoed to standard output.

The writer appends records to a daily file `<LogFile>_<yyyymmdd><LogExt>`.
When a record would take that file past `LogMaxSize`, the writer first
renames the file to a timestamped backup. At midnight it does two things:
- it closes a file whose name no longer carries today's date;
- it starts a sweep that deletes dated log files at least `LogBackupLimit`
  days old.

The modules follow the program's parts:

- `Text` — the string operations the logger relies on: `strings.Index`,
  `strings.Contains` and `strings.Split`, with their laws (split then join
  gives back the input; no piece contains the separator).
- `Config` — severities, the `LOGLEVEL` bit mask, and the settings
  `LogFile`, `LogPath`, `LogExt`, `LogMaxSize`, `LogBackupLimit`,
  `LogLevel` and `NoFileOutput`, with their defaults.
- `Naming` — `logFileNameGenerator`; the sweep's date-token recovery, both
  as written and corrected; the `20060102` date layout as a parse/format
  pair.
- `Records` — the level gates and `writeLog`. The class `Logger` holds the
  queue to the writer and the console output.
- `Disk` — the log directory, as the class `LogDirectory`. It maps names to
  regular files (their bytes) or sub-directories. `Rename`, `OpenFile`,
  `Write` and `Remove` each take a flag saying whether the system refuses
  the call. `Rename` is also refused, as Go's `os.Rename` refuses it, when a
  directory holds the target name. `Stat` fails exactly when the name is
  absent.
- `Opening` — `openLogFile`: stat, rename to a backup, open. The method
  `OpenLogFile` is proved against the function `OpenSpec`.
- `Writer` — `goWriter`. The class `Writer` holds the loop's variables:
  `logFileOpenedFlag`, `fileHandler`, `fileLength` and `lastCleanFinished`.
  Each arm of the `select` is a method: a record arrives (`OnRecord`), the
  midnight timer fires (`OnTimer`). A third method, `OnCleanupFinished`,
  marks the end of a sweep. Each method is proved against a step function
  (`RecordStep`, `TimerStep`). Lemmas about those step functions state what
  the writer guarantees.
- `Cleaner` — `cleanLogFile`. The method `CleanLogFile` loops over the
  directory listing and is proved against the function `Swept`.

Each element of a `string` stands for one byte of the Go string. The current
date, the clock stamp and each file's age in whole days are parameters.

Two defects of the source are logged under "## Findings", each with a member
that models the code as written. The rest of the model uses the corrected
code, and the rows of the table below whose members depend on a correction
say "corrected". The corrections are:
- the sweep also guards the length of the piece it slices (`DateToken`), so
  a name whose last piece is too short is skipped instead of ending the
  process;
- `openLogFile` reports the failure of `os.OpenFile` as an error
  (`OpenSpec`), so `goWriter` clears its flag and retries. `OpenSpecAsWritten`
  differs from `OpenSpec` only in that error, so the lemmas about `OpenSpec`
  that do not mention it hold for the function as written too.

## Model

| member | source | states |
|---|---|---|
| Config.Enabled | MyLog.go:210-228 | a level passes the gate iff the mask shares a bit with that level's constant (`LogLevel & LogLevel_X > 0`) |
| Config.GateIsPerLevel | MyLog.go:209-231 | each emit function is gated on its own level's bit alone: a mask holding only the bit of one level lets that level through and no other |
| Config.GateOfUnion | MyLog.go:21-28 | a mask that combines level constants with `\|` enables exactly the union of their levels |
| Config.GateAllAndNone | MyLog.go:21-28 | `LogLevel_ALL` enables every level; a zero mask enables none |
| Records.Format | MyLog.go:233-243 | the record starts with timestamp, tag and a space, then holds the message verbatim, and always ends in a newline; at most one byte, a newline, is added after the message, and none iff the message already ends in a newline |
| Records.FormatNewlines | MyLog.go:240-242 | the record ends in one newline when the message has none, and in as many as the message otherwise: a newline is never doubled or left out |
| Records.Queued | MyLog.go:244-251 | an emit queues one record iff the level is enabled and file output is on; that record is well formed (its `length` is its byte count) and holds the formatted text |
| Records.Echoed | MyLog.go:252 | an emit echoes the formatted text to standard output iff the level is enabled, whatever `NoFileOutput` says |
| Records.Logger.Emit | MyLog.go:209-231 | the queue and console grow by exactly `Queued` and `Echoed`; a disabled level leaves both untouched |
| Records.Logger.WriteLog | MyLog.go:233-256 | the buffer built step by step is the formatted record; it is queued with its own length unless `NoFileOutput`, and always echoed |
| Text.Split | MyLog.go:127 | `strings.Split` with a non-empty separator returns at least one piece |
| Text.JoinSplit | MyLog.go:127 | joining the pieces of `strings.Split` with the separator gives back the name |
| Text.SplitPiecesFree | MyLog.go:127 | no piece of `strings.Split` contains the separator |
| Naming.LogFileName | MyLog.go:149-156 | a generated name starts with `LogFile`, then `_` and the date, and ends with `LogExt` |
| Naming.StampDigits | MyLog.go:151-152 | `stamp[:6] + stamp[7:]` drops the dot of `HHMMSS.fff` and leaves nine digits |
| Naming.BackupDiffersFromCanonical | MyLog.go:149-156 | the backup name never equals the canonical name of the same day |
| Naming.BackupNamesDistinguishStamps | MyLog.go:150-152 | backups of one day taken at different clock stamps get different names |
| Naming.DateTokenAsWritten | MyLog.go:127-129 | as written: a token of 8 bytes when the second piece and the last piece are both long enough; a panic when only the second is, which needs at least three pieces |
| Naming.DateToken | MyLog.go:127-129 | corrected: the token read from the last piece, always 8 bytes long, or none |
| Naming.ParseDate | MyLog.go:131 | `time.ParseInLocation("20060102", …)`: whatever parses is a valid calendar date |
| Naming.DateTokenRoundTrip | MyLog.go:127-129 | for every canonical or backup name whose tail after `LogFile` does not contain `LogFile` again, the sweep's token `n[len(n)-1][1:9]` is the date the name was built with, as written and corrected |
| Naming.BaseThenTail | MyLog.go:149-156 | every generated name is `LogFile` followed by the name generated for an empty base |
| Naming.NameContainsBase | MyLog.go:124 | every generated name contains `LogFile`, so the sweep does not skip it at the `Contains` test |
| Naming.TokenAfterBase | MyLog.go:127-129 | a name made of `LogFile` and a tail free of `LogFile` yields bytes 1 to 8 of the tail as its token, as written and corrected |
| Naming.SweepPanicsOnForeignName | MyLog.go:128-129 | as written, `checkout_service_timeout.log` with `LogFile` `out` passes the guard but its last piece `.log` is too short to slice; the corrected guard skips it |
| Naming.OwnNameWithBaseInExtension | MyLog.go:127-129 | with `LogFile` `log` and `LogExt` `.log`, `log_20261016.log` splits into `""`, `_20261016.`, `""`; as written the sweep panics on it, and the corrected guard reads no token |
| Naming.CorrectedGuardAgrees | MyLog.go:128-129 | the corrected guard reads a token iff the sweep as written does, and the same one; where the sweep as written panics, the corrected one reads none |
| Naming.ParseFormatDate | MyLog.go:131 | parsing the `20060102` text of a calendar date gives back that date |
| Naming.FormatParseDate | MyLog.go:131 | a token that parses is exactly the `20060102` text of its date |
| Opening.NeedsRename | MyLog.go:175 | no rename without a size limit or with an empty or absent file; a non-empty file already at the limit is renamed before any record |
| Opening.OpenSpec | MyLog.go:158-186 | corrected: an error is reported iff no handle is returned; a returned handle is open on today's canonical name; the length is never negative |
| Opening.OpenSpecAsWritten | MyLog.go:183-185 | as written, `openLogFile` reports no error even when `os.OpenFile` failed and the handle is nil |
| Opening.OpenLogFile | MyLog.go:158-186 | corrected: the new directory and the returned handle, length and error are those of `OpenSpec` for the old directory |
| Opening.OpenRenameRule | MyLog.go:168-182 | after a rename that goes through the backup holds the old file, the count restarts at 0 and the handle is on a fresh empty file; otherwise (no rename due, or the rename refused, also by a directory at the backup name) the canonical file is kept and its size (0 when absent) is returned |
| Opening.OpenStartsAtFileSize | MyLog.go:168-185 | whenever a handle is returned, it is on today's canonical regular file and the returned length is that file's size |
| Opening.OpenUnboundedNeverRenames | MyLog.go:175 | with `LogMaxSize` 0 nothing is renamed: the returned length is the existing size and only the canonical file may be added |
| Opening.OpenFrame | MyLog.go:176-183 | `openLogFile` touches no name other than the canonical and the backup name |
| Opening.OpenErrorReporting | MyLog.go:183-185 | when `os.OpenFile` fails, the corrected function returns no handle and reports an error; as written it reports none |
| Writer.NeedsRotation | MyLog.go:81 | a record always opens a file while the flag is clear; with `LogMaxSize` 0 it opens one only then |
| Writer.RecordStep | MyLog.go:80-104 | corrected: a record event leaves `lastCleanFinished` alone, and keeps the handle and the flag when no rotation is due |
| Writer.TimerStep | MyLog.go:61-77 | a timer event never drops or replaces the handle: one is held after it iff one was held before, with the same name |
| Writer.RecordStepKeepsInvariant | MyLog.go:80-104 | corrected: for every outcome of rename, open and write, a record event keeps the flag set only while an open handle is held, and keeps `fileLength` equal to the size of the file being written |
| Writer.TimerStepKeepsInvariant | MyLog.go:61-70 | a timer event keeps the same two invariants |
| Writer.RemovalKeepsTracks | MyLog.go:138 | a sweep that only removes entries keeps `fileLength` exact |
| Writer.RecordAccounting | MyLog.go:97-104 | corrected: after a successful write `fileLength` grows by exactly the record's length and the record's bytes are appended to the file; a failed write, or no handle, changes nothing |
| Writer.UnboundedKeepsFile | MyLog.go:81 | corrected: with `LogMaxSize` 0 an open file is never rotated: the record goes through the same handle |
| Writer.SizeLimitRespected | MyLog.go:81-104 | corrected: when no system call fails and no directory holds the backup name, the file held after a record is within `LogMaxSize` or holds that single oversized record |
| Writer.Rollover | MyLog.go:61-70 | corrected: when the timer finds the handle's name without today's date, it clears the flag, and the next record opens today's canonical file, which a timer firing again on the same date keeps open |
| Writer.TimerRules | MyLog.go:61-77 | a cleanup starts iff the previous one finished, and `lastCleanFinished` is cleared after every timer event; the handle is closed iff its name lacks `_<today>` (or it was closed already); `fileLength` is untouched |
| Writer.StuckAfterFailedOpenAsWritten | MyLog.go:88-97 | as written, a failed open leaves the flag set with a nil handle: later records within the size limit are dropped without a retry, and the timer cannot clear the flag |
| Writer.RetryAfterFailedOpen | MyLog.go:88-94 | corrected: a failed open clears the flag, so the next record opens today's canonical file again |
| Writer.Writer.constructor | MyLog.go:52-57 | the writer starts with no handle, the flag clear, length 0 and no cleanup running |
| Writer.Writer.OnRecord | MyLog.go:80-104 | corrected: the new directory and writer state are `RecordStep` of the old ones, and the invariant is kept |
| Writer.Writer.RotateIfNeeded | MyLog.go:81-95 | corrected: the new directory and state are `Rotate` of the old ones: the open happens iff the rotation rule holds, and the flag is set iff the open reports no error |
| Writer.Writer.WriteRecord | MyLog.go:97-104 | the new directory and state are `Append` of the old ones: a successful write appends the bytes and adds the record's length |
| Writer.Writer.OnTimer | MyLog.go:61-77 | the new state and the cleanup start are `TimerStep` of the old state, and the invariant is kept |
| Writer.Writer.OnCleanupFinished | MyLog.go:73-76 | only `lastCleanFinished` is set |
| Disk.LogDirectory.Stat | MyLog.go:168-173 | `os.Stat` fails iff the name is absent; otherwise it reports the entry's size |
| Disk.CanRename | MyLog.go:176 | `os.Rename` can go through only when the source exists, and never onto an existing directory unless both names are the same; a fresh target is always allowed |
| Disk.LogDirectory.Rename | MyLog.go:176 | `os.Rename` succeeds iff the call is not refused and `CanRename` holds; then the entry moves and replaces the target |
| Disk.LogDirectory.OpenFile | MyLog.go:183 | `os.OpenFile` with create: fails on refusal or on a directory, otherwise gives an open handle and creates an empty file when absent |
| Disk.LogDirectory.Write | MyLog.go:98 | a write through a closed handle fails; a successful one appends the bytes to the file |
| Disk.LogDirectory.Remove | MyLog.go:138 | `os.Remove` succeeds iff the entry exists and the call is not refused, and removes only that entry |
| Cleaner.Expired | MyLog.go:120-137 | corrected: only a regular file on which the sweep as written also reads a token can expire |
| Cleaner.Swept | MyLog.go:110-147 | corrected: the sweep only deletes; with `LogBackupLimit` 0 or an unreadable directory it deletes nothing; otherwise it deletes exactly the expired entries whose delete is not refused, and keeps all others unchanged |
| Cleaner.CleanLogFile | MyLog.go:110-147 | corrected: the loop over the listing leaves the directory equal to `Swept` of the old directory |
| Cleaner.ExpiryByToken | MyLog.go:124-137 | corrected: a file whose name contains `LogFile` and carries the token of date `d` expires iff `d` is at least `LogBackupLimit` days old |
| Cleaner.GeneratedNameExpiry | MyLog.go:124-137 | corrected: a canonical or backup file dated `d`, whose name after `LogFile` does not contain `LogFile` again, expires exactly when its age is at least `LogBackupLimit` |
| Cleaner.RetentionOfLogFiles | MyLog.go:110-147 | corrected: such a file (a generated name whose part after `LogFile` does not contain `LogFile` again) is deleted iff the limit is not 0, the listing succeeds, its age is at least the limit and its delete is not refused |
| Cleaner.SweepSkips | MyLog.go:120-134 | corrected: directories, names without `LogFile`, and names whose token is missing or not a date all survive the sweep |
| Cleaner.FailedDeleteDoesNotStopSweep | MyLog.go:138-141 | corrected: the fate of an entry the system lets go does not depend on which other deletes are refused |
| Cleaner.CrashesAsWritten | MyLog.go:111-129 | the sweep as written can crash only when `LogBackupLimit` is not 0 and `ioutil.ReadDir` succeeds, and only on a regular file on which line 129's slice panics |
| Cleaner.DefaultSweepCrashesAsWritten | MyLog.go:111-129 | with the default settings, one file `checkout_service_timeout.log` in the log directory crashes the sweep as written exactly when the listing succeeds; the corrected sweep keeps that file |

## Left out

- The goroutine, the buffered channel and its blocking, and `select` multiplexing are not modelled. Events are sequential method calls. The flag `lastCleanFinished` is written by the cleanup goroutine without synchronisation; here that write is the separate event `OnCleanupFinished`.
- Timers and the clock are parameters: `getTomorrowTimestamp`, `time.Now` and re-arming the timer. Callers pass today's date (`20060102`), the clock stamp (`150405.000`) and the record timestamp text.
- Each file's age is the parameter `ageOf`, in whole days. The floating-point `Hours()/24` and the local time zone are not modelled.
- `getLogPath` is not modelled: the OS default directory, `MkdirAll` and its panic. `LogPath` is a setting that holds the directory. The directory is modelled as one flat map, so `filepath.Join` only matters for the timer's name test (`Writer.FullPath`, without path cleaning).
- Console output of error messages (`fmt.Println`) is not modelled. Close errors are not modelled: closing is marking the handle closed.
- Go's date parser accepts a sign in the year field (`+0240101`). `Naming.ParseDate` accepts only eight digits, so such a token does not parse in the model.
- The order in which `ioutil.ReadDir` lists entries is not modelled. The loop picks any remaining entry. For the corrected sweep this suffices, because the decision for one entry does not depend on the others. For the sweep as written it does not (next line).
- Cleaner.CleanLogFile: models the corrected sweep. The sweep as written ends the process at the first name that panics (`Cleaner.CrashesAsWritten`), and which files it deleted before that depends on the order of the listing; that partial run is not modelled.
- Cleaner.Swept: states the corrected sweep's result, not the partial result of a sweep as written that panics.
- Opening.OpenLogFile: models the corrected `openLogFile`, which reports the failure of `os.OpenFile` as an error; the function as written is `Opening.OpenSpecAsWritten`.
- Disk.LogDirectory.Stat: a refused `os.Stat` on an existing file is not modelled. In the source it yields length 0 and no rename, so the count starts below the file's real size. `Opening.OpenStartsAtFileSize`, `Writer.RecordStepKeepsInvariant` and `Writer.SizeLimitRespected` rely on `Stat` succeeding on an existing file.
- Writer.SizeLimitRespected: requires that no directory holds the backup name. With one there, `os.Rename` is refused, the canonical file keeps its size and the record is appended past `LogMaxSize`, in the source as in the model.
- Disk.LogDirectory.Write: a write is all or nothing. A partial write that returns an error is not modelled; in the source it leaves some bytes in the file while `fileLength` is not increased.
- Writer.RecordStepKeepsInvariant: the claim that `fileLength` equals the file's size for every write outcome rests on all-or-nothing writes (line above).
- Naming.DateTokenRoundTrip: requires that the part of the name after `LogFile` does not contain `LogFile` again. With `LogFile` `log` and `LogExt` `.log`, the logger's own `log_20261016.log` splits into `""`, `_20261016.` and `""`, because its trailing `log` is a separator too; the second piece passes the guard and the sweep as written panics slicing the empty last piece.
- Cleaner.GeneratedNameExpiry: requires that the part of the generated name after `LogFile` does not contain `LogFile`. For a name that breaks this, such as `log_20261016.log` above, the corrected `DateToken` reads no token (`Naming.OwnNameWithBaseInExtension`), so the file never expires.
- Cleaner.RetentionOfLogFiles: has the same requirement; the corrected sweep keeps a generated file that breaks it forever.
- `strings.Split` with an empty separator splits into UTF-8 sequences. `Text.Split` splits into single bytes.
- `int64` overflow of `fileLength` is not modelled; integers are unbounded.
- The four emit functions `Info`, `Warning`, `Error` and `Debug` are one method, `Records.Logger.Emit`, taking the level as a parameter.
- `Records.Logger.Emit` and `Records.Logger.WriteLog` require a non-empty message when the level is enabled. The source reads the message's last byte and faults on an empty one.
- example/example.go is not part of this model: it only sets the settings and calls the emit functions.
- The record timestamp is the caller's text; the `2006-01-02 15:04:05.000000 ` layout is not modelled.

## Findings

| source | as written | input that shows it | evidently intended | confidence | as-written member | corrected member |
|---|---|---|---|---|---|---|
| MyLog.go:128-129 | the guard checks `len(n[1]) >= 9` but the slice `[1:9]` is taken from the last piece `n[len(n)-1]` | with `LogFile` `out`, a regular file `checkout_service_timeout.log` in the log directory splits into `check`, `_service_time`, `.log`; the second piece passes the guard and slicing `.log` panics, which ends the process | keep the guard and also guard the piece that is sliced: `len(n[1]) >= 9 && len(n[len(n)-1]) >= 9` | not executed | Naming.SweepPanicsOnForeignName | Naming.DateToken |
| MyLog.go:183-185 | `openLogFile` discards the error of `os.OpenFile` and always returns a nil error | with `os.OpenFile` failing (permissions, a full disk), goWriter sets `logFileOpenedFlag` with a nil handle; later records within the size limit never retry the open and are dropped, and the timer does not clear the flag because the handle is nil | return the error of `os.OpenFile`, so that the flag stays clear and the next record retries | not executed | Writer.StuckAfterFailedOpenAsWritten | Writer.RetryAfterFailedOpen |
