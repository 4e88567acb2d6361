/** `MigrationManager`: the schema version recorded in `schema_migrations`,
    the migrations still to apply, the run that applies them in order and
    stops at the first failure, the migration log, and the decision which
    old database backups to delete. */
module SchemaMigrations {
  import opened Wrappers
  import opened Text
  import opened Tasks
  import opened Seqs
  import OrderedMaps
  import MigrationSettings

  const V1_0 := "1.0.0"
  const V1_1 := "1.1.0"
  const V2_0 := "2.0.0"

  /** `CURRENT_VERSION`. */
  const Target := V2_0

  /** The versions in the order the schema went through them. */
  const History := [V1_0, V1_1, V2_0]

  // ---------------------------------------------------------------------
  // Versions

  /** `_is_legacy_v1`: with no id matching `LIKE 'phase_%'` the database is
      a version 1 database, whether or not the `code_language` column
      exists. */
  function IsLegacyV1(rows: seq<Task>, hasCodeSupport: bool): (b: bool)
    ensures b <==> forall i :: 0 <= i < |rows| ==> !LikePhase(rows[i].id)
  {
    var phaseCount := LikePhaseCount(rows);
    if phaseCount == 0 && hasCodeSupport then true
    else if phaseCount == 0 then true
    else false
  }

  /** `_get_current_version`: the latest recorded version; with no record,
      `1.0.0` for a legacy database and `None` otherwise. `records` lists
      the recorded versions in the order they were applied. */
  function CurrentVersion(records: seq<string>, rows: seq<Task>, hasCodeSupport: bool): (r: Option<string>)
    ensures |records| > 0 ==> r == Some(records[|records| - 1])
    ensures |records| == 0 && (forall i :: 0 <= i < |rows| ==> !LikePhase(rows[i].id)) ==> r == Some(V1_0)
    ensures |records| == 0 && (exists i :: 0 <= i < |rows| && LikePhase(rows[i].id)) ==> r.None?
  {
    if |records| > 0 then Some(records[|records| - 1])
    else if IsLegacyV1(rows, hasCodeSupport) then Some(V1_0)
    else None
  }

  /** `_get_pending_migrations`: a missing or empty version and `1.0.0`
      need both migrations, `1.1.0` needs the last one, and any other
      version, the target included, needs none. */
  function Pending(current: Option<string>): (r: seq<string>)
    ensures forall i :: 0 <= i < |r| ==> r[i] in History[1..]
  {
    match current
    case None => [V1_1, V2_0]
    case Some(v) =>
      if v == "" || v == V1_0 then [V1_1, V2_0]
      else if v == V1_1 then [V2_0]
      else []
  }

  /** For a version of the history, the pending migrations are exactly the
      versions after it; a database without a version starts from the
      first. */
  lemma PendingFollowsHistory(current: Option<string>)
    ensures current.None? ==> Pending(current) == History[1..]
    ensures forall k :: 0 <= k < |History| && current == Some(History[k]) ==> Pending(current) == History[k + 1..]
    ensures current.Some? && current.value != "" && current.value !in History ==> Pending(current) == []
  {
  }

  /** Every pending list that is not empty ends at the target version. */
  lemma PendingEndsAtTarget(current: Option<string>)
    ensures |Pending(current)| > 0 ==> Pending(current)[|Pending(current)| - 1] == Target
    ensures current == Some(Target) ==> Pending(current) == []
  {
  }

  // ---------------------------------------------------------------------
  // The migration log

  /** The log's messages that the model keeps: a migration started, went
      through, failed, the backup was restored, the log was saved.
      Timestamps and the table listings are not modelled. */
  datatype LogEntry = Started(version: string) | Completed(version: string) | Failed(version: string) | Restored | LogSaved

  /** `_log_migration`: the log gains the entry at its end. */
  function LogMigration(log: seq<LogEntry>, e: LogEntry): (r: seq<LogEntry>)
    ensures |r| == |log| + 1 && r[..|log|] == log && r[|log|] == e
  {
    log + [e]
  }

  // ---------------------------------------------------------------------
  // Running the migrations

  /** The database side the run changes: the recorded versions, in applied
      order, and the migration log. */
  datatype State = State(records: seq<string>, log: seq<LogEntry>)

  /** What the run's surroundings decide: whether a terminal is attached,
      the user's answers, which migration functions succeed, and whether
      the log file can be written. */
  datatype Surroundings = Surroundings(
    isTty: bool,
    confirmsMigration: bool,
    wantsRestore: bool,
    succeeds: string -> bool,
    logFileWritable: bool)

  datatype Outcome =
    | Finished(ok: bool, state: State, backedUp: bool, restored: bool, cleanedUp: bool)
    | /** `sys.exit(0)` after the user declined. */
      Exited(state: State)

  /** Python truthiness of `migration_config.get(key, True)`. */
  function Flag(settings: MigrationSettings.Settings, key: string): (b: bool)
    ensures !OrderedMaps.HasKey(settings, key) ==> b
    ensures OrderedMaps.HasKey(settings, key) && OrderedMaps.Get(settings, key).BoolV? ==>
              b == OrderedMaps.Get(settings, key).b
  {
    match MigrationSettings.Lookup(settings, key, MigrationSettings.BoolV(true))
    case BoolV(b) => b
    case IntV(n) => n != 0
    case StrV(t) => t != ""
  }

  /** `pending[..k]` all succeed and `pending[k]` fails. */
  ghost predicate FirstFailure(pending: seq<string>, succeeds: string -> bool, k: int) {
    0 <= k < |pending| && !succeeds(pending[k]) && forall j :: 0 <= j < k ==> succeeds(pending[j])
  }

  /** The loop over the pending migrations: each one is logged as started,
      run, recorded and logged as completed; the first failure is logged,
      restores the backup when there is one and the user asks for it, and
      ends the run with `False`. The second component says whether the
      backup was restored. */
  function RunAll(st: State, pending: seq<string>, env: Surroundings, backedUp: bool): (r: (bool, bool, State))
    ensures r.0 <==> forall j :: 0 <= j < |pending| ==> env.succeeds(pending[j])
    ensures r.1 <==> !r.0 && backedUp && env.wantsRestore
    ensures |r.2.log| >= |st.log| && r.2.log[..|st.log|] == st.log
    decreases |pending|
  {
    if |pending| == 0 then (true, false, st)
    else
      var v := pending[0];
      var started := LogMigration(st.log, Started(v));
      if env.succeeds(v) then
        var next := State(st.records + [v], LogMigration(started, Completed(v)));
        var rest := RunAll(next, pending[1..], env, backedUp);
        assert rest.2.log[..|st.log|] == st.log by {
          assert next.log[..|st.log|] == st.log;
          assert rest.2.log[..|next.log|][..|st.log|] == rest.2.log[..|st.log|];
        }
        assert (forall j :: 0 <= j < |pending| ==> env.succeeds(pending[j])) <==>
               (forall j :: 0 <= j < |pending[1..]| ==> env.succeeds(pending[1..][j]));
        rest
      else
        var failed := LogMigration(started, Failed(v));
        var restore := backedUp && env.wantsRestore;
        var log := if restore then LogMigration(failed, Restored) else failed;
        (false, restore, State(st.records, log))
  }

  /** The run records exactly the pending migrations, in order, when all of
      them succeed, and those before the first failure otherwise, so no
      migration after a failure runs. */
  lemma {:induction false} RunAllRecords(st: State, pending: seq<string>, env: Surroundings, backedUp: bool)
    ensures var r := RunAll(st, pending, env, backedUp);
            && (r.0 ==> r.2.records == st.records + pending)
            && (!r.0 ==> exists k :: FirstFailure(pending, env.succeeds, k) && r.2.records == st.records + pending[..k])
    decreases |pending|
  {
    if |pending| == 0 {
      assert st.records + pending == st.records;
    } else {
      var v := pending[0];
      if env.succeeds(v) {
        var next := State(st.records + [v], LogMigration(LogMigration(st.log, Started(v)), Completed(v)));
        RunAllRecords(next, pending[1..], env, backedUp);
        var rest := RunAll(next, pending[1..], env, backedUp);
        assert rest == RunAll(st, pending, env, backedUp);
        if rest.0 {
          assert st.records + [v] + pending[1..] == st.records + pending;
        } else {
          var k :| FirstFailure(pending[1..], env.succeeds, k) && rest.2.records == next.records + pending[1..][..k];
          assert FirstFailure(pending, env.succeeds, k + 1) by {
            forall j | 0 <= j < k + 1 ensures env.succeeds(pending[j]) {
              if j > 0 {
                assert pending[j] == pending[1..][j - 1];
              }
            }
          }
          assert st.records + [v] + pending[1..][..k] == st.records + pending[..k + 1];
        }
      } else {
        assert FirstFailure(pending, env.succeeds, 0);
        assert st.records + pending[..0] == st.records;
      }
    }
  }

  /** `_do_migration`: nothing happens with `auto_migrate` off; an
      up-to-date database only has its old backups cleaned; with nothing
      pending the run ends; in interactive mode on a terminal the user may
      decline, which exits; otherwise a backup is taken when `auto_backup`
      is on and the pending migrations run; a complete run saves the log
      and cleans the old backups. */
  function Migrate(settings: MigrationSettings.Settings, rows: seq<Task>, hasCodeSupport: bool,
                   st: State, env: Surroundings): (r: Outcome)
    ensures !Flag(settings, MigrationSettings.AutoMigrate) ==> r == Finished(true, st, false, false, false)
    ensures CurrentVersion(st.records, rows, hasCodeSupport) == Some(Target) && Flag(settings, MigrationSettings.AutoMigrate) ==>
              r == Finished(true, st, false, false, true)
    ensures r.Exited? <==>
              Flag(settings, MigrationSettings.AutoMigrate)
              && CurrentVersion(st.records, rows, hasCodeSupport) != Some(Target)
              && |Pending(CurrentVersion(st.records, rows, hasCodeSupport))| > 0
              && Flag(settings, MigrationSettings.Interactive) && env.isTty && !env.confirmsMigration
    ensures r.Exited? ==> r.state == st
    ensures r.Finished? && r.backedUp ==> Flag(settings, MigrationSettings.AutoBackup)
    ensures r.Finished? && r.restored ==> r.backedUp && !r.ok && env.wantsRestore
    ensures r.Finished? && r.cleanedUp ==> r.ok
  {
    if !Flag(settings, MigrationSettings.AutoMigrate) then Finished(true, st, false, false, false)
    else
      var current := CurrentVersion(st.records, rows, hasCodeSupport);
      if current == Some(Target) then Finished(true, st, false, false, true)
      else
        var pending := Pending(current);
        if |pending| == 0 then Finished(true, st, false, false, false)
        else if Flag(settings, MigrationSettings.Interactive) && env.isTty && !env.confirmsMigration then Exited(st)
        else
          var backup := Flag(settings, MigrationSettings.AutoBackup);
          var run := RunAll(st, pending, env, backup);
          if run.0 then
            var log := if env.logFileWritable then LogMigration(run.2.log, LogSaved) else run.2.log;
            Finished(true, State(run.2.records, log), backup, false, true)
          else Finished(false, run.2, backup, run.1, false)
  }

  /** The pending list a run that goes ahead works through. */
  function PendingFor(st: State, rows: seq<Task>, hasCodeSupport: bool): seq<string> {
    var current := CurrentVersion(st.records, rows, hasCodeSupport);
    if current == Some(Target) then [] else Pending(current)
  }

  /** A run that goes ahead records exactly the pending migrations, in
      order, when all of them succeed, and those before the first failure
      otherwise, so no migration after a failure runs; the log only grows. */
  lemma MigrateRecords(settings: MigrationSettings.Settings, rows: seq<Task>, hasCodeSupport: bool,
                       st: State, env: Surroundings)
    requires Flag(settings, MigrationSettings.AutoMigrate)
    requires Migrate(settings, rows, hasCodeSupport, st, env).Finished?
    ensures var r := Migrate(settings, rows, hasCodeSupport, st, env);
            var pending := PendingFor(st, rows, hasCodeSupport);
            && (r.ok <==> forall j :: 0 <= j < |pending| ==> env.succeeds(pending[j]))
            && (r.ok ==> r.state.records == st.records + pending)
            && (!r.ok ==> exists k :: FirstFailure(pending, env.succeeds, k) && r.state.records == st.records + pending[..k])
            && |r.state.log| >= |st.log| && r.state.log[..|st.log|] == st.log
  {
    var current := CurrentVersion(st.records, rows, hasCodeSupport);
    if current == Some(Target) {
      assert st.records + [] == st.records;
    } else if |Pending(current)| == 0 {
      assert st.records + Pending(current) == st.records;
    } else {
      var run := RunAll(st, Pending(current), env, Flag(settings, MigrationSettings.AutoBackup));
      RunAllRecords(st, Pending(current), env, Flag(settings, MigrationSettings.AutoBackup));
      var r := Migrate(settings, rows, hasCodeSupport, st, env);
      assert PendingFor(st, rows, hasCodeSupport) == Pending(current);
      if run.0 {
        assert r.state.records == run.2.records;
        if env.logFileWritable {
          assert r.state.log == run.2.log + [LogSaved];
          assert r.state.log[..|run.2.log|] == run.2.log;
          assert r.state.log[..|st.log|] == run.2.log[..|run.2.log|][..|st.log|];
        }
      } else {
        assert r.state == run.2 && !r.ok;
      }
    }
  }

  /** After a complete run the database is at the target version, and a
      second run changes nothing and only cleans the backups. */
  lemma MigrateIdempotent(settings: MigrationSettings.Settings, rows: seq<Task>, hasCodeSupport: bool,
                          st: State, env: Surroundings, again: Surroundings)
    requires Flag(settings, MigrationSettings.AutoMigrate)
    requires Migrate(settings, rows, hasCodeSupport, st, env).Finished?
    requires Migrate(settings, rows, hasCodeSupport, st, env).ok
    requires |PendingFor(st, rows, hasCodeSupport)| > 0 || CurrentVersion(st.records, rows, hasCodeSupport) == Some(Target)
    ensures var after := Migrate(settings, rows, hasCodeSupport, st, env).state;
            && CurrentVersion(after.records, rows, hasCodeSupport) == Some(Target)
            && Migrate(settings, rows, hasCodeSupport, after, again) == Finished(true, after, false, false, true)
  {
    var current := CurrentVersion(st.records, rows, hasCodeSupport);
    PendingEndsAtTarget(current);
    MigrateRecords(settings, rows, hasCodeSupport, st, env);
    var after := Migrate(settings, rows, hasCodeSupport, st, env).state;
    if current != Some(Target) {
      var pending := Pending(current);
      assert after.records == st.records + pending;
      assert after.records[|after.records| - 1] == pending[|pending| - 1];
    }
  }

  // ---------------------------------------------------------------------
  // Cleaning old backups

  const BackupMarker := "_backup_"
  const DbSuffix := ".db"
  const SecondsPerDay := 86400

  /** `backup_retention_days` as `_cleanup_old_backups` compares it: a bool
      counts as 0 or 1, and a string makes the comparison raise, which the
      handler around the whole cleanup swallows. */
  function RetentionDays(v: MigrationSettings.Value): (r: Option<int>)
    ensures v.IntV? ==> r == Some(v.n)
    ensures v.StrV? <==> r.None?
  {
    match v
    case BoolV(b) => Some(if b then 1 else 0)
    case IntV(n) => Some(n)
    case StrV(_) => None
  }

  /** The glob `<db stem>_backup_*.db` on a file name. */
  predicate IsBackupOf(name: string, dbStem: string) {
    |name| >= |dbStem| + |BackupMarker| + |DbSuffix|
    && dbStem + BackupMarker <= name
    && name[|name| - |DbSuffix|..] == DbSuffix
  }

  /** `Path.stem` of a backup: the name without its `.db`. */
  function BackupStem(name: string, dbStem: string): (r: string)
    requires IsBackupOf(name, dbStem)
    ensures r + DbSuffix == name
  {
    name[..|name| - |DbSuffix|]
  }

  /** `stem.split('_backup_')[1]`: the text between the first marker and
      the next one, or `None` (an `IndexError`) without a marker. */
  function StampText(stem: string): (r: Option<string>)
    ensures r.None? <==> Find(stem, BackupMarker).None?
    ensures r.Some? ==> exists i :: OccursAt(stem, BackupMarker, i) && r.value <= stem[i + |BackupMarker|..]
  {
    match Find(stem, BackupMarker)
    case None => None
    case Some(i) =>
      var rest := stem[i + |BackupMarker|..];
      match Find(rest, BackupMarker)
      case None => Some(rest)
      case Some(j) => Some(rest[..j])
  }

  /** What the `*` of the glob matched: the timestamp the backup was named
      with when `_create_backup` made it. */
  function StampOf(name: string, dbStem: string): (r: string)
    requires IsBackupOf(name, dbStem)
    ensures dbStem + BackupMarker + r + DbSuffix == name
  {
    var r := name[|dbStem| + |BackupMarker|..|name| - |DbSuffix|];
    assert name == name[..|dbStem| + |BackupMarker|] + r + name[|name| - |DbSuffix|..];
    r
  }

  /** As written: a backup of this database whose `split` piece parses to a
      time before `cutoff`. */
  predicate ExpiredAsWritten(name: string, dbStem: string, cutoff: int, parseStamp: string -> Option<int>) {
    IsBackupOf(name, dbStem)
    && match StampText(BackupStem(name, dbStem))
       case None => false
       case Some(t) => parseStamp(t).Some? && parseStamp(t).value < cutoff
  }

  /** Corrected: a backup of this database whose own timestamp parses to a
      time before `cutoff`. */
  predicate Expired(name: string, dbStem: string, cutoff: int, parseStamp: string -> Option<int>) {
    IsBackupOf(name, dbStem)
    && parseStamp(StampOf(name, dbStem)).Some?
    && parseStamp(StampOf(name, dbStem)).value < cutoff
  }

  /** `_cleanup_old_backups` as written: nothing is deleted unless the
      retention is a positive number of days; then every backup of the
      database in `names` (the directory listing) whose timestamp piece
      parses to a time before `now` minus the retention. `parseStamp`
      stands for `strptime` with `%Y%m%d_%H%M%S`, in seconds, and is `None`
      when it raises; such files are skipped. */
  function ExpiredBackupsAsWritten(retention: MigrationSettings.Value, dbStem: string, names: seq<string>,
                                   now: int, parseStamp: string -> Option<int>): (r: seq<string>)
    ensures (RetentionDays(retention).None? || RetentionDays(retention).value <= 0) ==> r == []
    ensures forall x :: x in r <==>
              RetentionDays(retention).Some? && RetentionDays(retention).value > 0 && x in names
              && ExpiredAsWritten(x, dbStem, now - RetentionDays(retention).value * SecondsPerDay, parseStamp)
  {
    match RetentionDays(retention)
    case None => []
    case Some(days) =>
      if days <= 0 then []
      else
        var cutoff := now - days * SecondsPerDay;
        Filter(names, x => ExpiredAsWritten(x, dbStem, cutoff, parseStamp))
  }

  /** The corrected cleanup: the same decision, reading each backup's
      timestamp from the part of its name after `<db stem>_backup_`. */
  function ExpiredBackups(retention: MigrationSettings.Value, dbStem: string, names: seq<string>,
                          now: int, parseStamp: string -> Option<int>): (r: seq<string>)
    ensures (RetentionDays(retention).None? || RetentionDays(retention).value <= 0) ==> r == []
    ensures forall x :: x in r <==>
              RetentionDays(retention).Some? && RetentionDays(retention).value > 0 && x in names
              && Expired(x, dbStem, now - RetentionDays(retention).value * SecondsPerDay, parseStamp)
  {
    match RetentionDays(retention)
    case None => []
    case Some(days) =>
      if days <= 0 then []
      else
        var cutoff := now - days * SecondsPerDay;
        Filter(names, x => Expired(x, dbStem, cutoff, parseStamp))
  }

  /** A backup created at time `t` is deleted by the corrected cleanup
      exactly when `t` lies more than the retention period before `now`. */
  lemma BackupDeletedIffOld(days: int, dbStem: string, stamp: string, names: seq<string>,
                            now: int, t: int, parseStamp: string -> Option<int>)
    requires days > 0
    requires dbStem + BackupMarker + stamp + DbSuffix in names
    requires parseStamp(stamp) == Some(t)
    ensures var name := dbStem + BackupMarker + stamp + DbSuffix;
            name in ExpiredBackups(MigrationSettings.IntV(days), dbStem, names, now, parseStamp)
            <==> t < now - days * SecondsPerDay
  {
    var name := dbStem + BackupMarker + stamp + DbSuffix;
    assert (dbStem + BackupMarker) + (stamp + DbSuffix) == name;
    assert name[|name| - |DbSuffix|..] == DbSuffix;
    assert IsBackupOf(name, dbStem);
    var s := StampOf(name, dbStem);
    assert (dbStem + BackupMarker + s) + DbSuffix == (dbStem + BackupMarker + stamp) + DbSuffix;
    assert dbStem + BackupMarker + s == dbStem + BackupMarker + stamp;
    assert s == (dbStem + BackupMarker + s)[|dbStem + BackupMarker|..];
  }

  /** The as-written cleanup never deletes a backup of a database whose
      stem ends in `_backup`: the stem `a_backup_backup_1` splits into
      `a`, `backup_1`, so the piece read as the timestamp is `backup_1`
      and not the `1` the backup was named with. */
  lemma SplitMisreadsStamp()
    ensures StampText("a_backup" + BackupMarker + "1") == Some("backup_1")
    ensures StampOf("a_backup" + BackupMarker + "1" + DbSuffix, "a_backup") == "1"
  {
    var stem := "a_backup" + BackupMarker + "1";
    assert !OccursAt(stem, BackupMarker, 0) by {
      assert stem[0] != BackupMarker[0];
    }
    assert OccursAt(stem, BackupMarker, 1) by {
      assert stem[1..9] == BackupMarker;
    }
    var rest := stem[9..];
    assert rest == "backup_1";
    assert forall j :: !OccursAt(rest, BackupMarker, j);
    BackupStampRead("a_backup", "1");
  }

  /** The corrected reading returns the stamp the backup was named with. */
  lemma BackupStampRead(dbStem: string, stamp: string)
    ensures IsBackupOf(dbStem + BackupMarker + stamp + DbSuffix, dbStem)
    ensures StampOf(dbStem + BackupMarker + stamp + DbSuffix, dbStem) == stamp
  {
    var name := dbStem + BackupMarker + stamp + DbSuffix;
    assert (dbStem + BackupMarker) + (stamp + DbSuffix) == name;
    assert name[|name| - |DbSuffix|..] == DbSuffix;
    var s := StampOf(name, dbStem);
    assert (dbStem + BackupMarker + s) + DbSuffix == (dbStem + BackupMarker + stamp) + DbSuffix;
    assert dbStem + BackupMarker + s == dbStem + BackupMarker + stamp;
    assert s == (dbStem + BackupMarker + s)[|dbStem + BackupMarker|..];
  }

  /** So with a retention in force, a backup of `a_backup` with any stamp
      that parses to a time before the cutoff is deleted by the corrected
      cleanup and kept by the as-written one whenever `backup_1` does not
      parse. */
  lemma SplitKeepsOldBackup(days: int, now: int, t: int, parseStamp: string -> Option<int>)
    requires days > 0
    requires parseStamp("1") == Some(t) && t < now - days * SecondsPerDay
    requires parseStamp("backup_1").None?
    ensures var name := "a_backup" + BackupMarker + "1" + DbSuffix;
            && name in ExpiredBackups(MigrationSettings.IntV(days), "a_backup", [name], now, parseStamp)
            && name !in ExpiredBackupsAsWritten(MigrationSettings.IntV(days), "a_backup", [name], now, parseStamp)
  {
    var name := "a_backup" + BackupMarker + "1" + DbSuffix;
    SplitMisreadsStamp();
    BackupStampRead("a_backup", "1");
    assert BackupStem(name, "a_backup") == "a_backup" + BackupMarker + "1";
  }
}
