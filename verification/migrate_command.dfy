/** The `agent-mcp migrate` command: `--set KEY=VALUE`, the backup choice of
    `--restore`, and the temporary overrides of a plain run. */
module MigrateCommand {
  import opened Wrappers
  import opened Text
  import opened Seqs
  import opened OrderedMaps
  import opened Sorting
  import opened MigrationSettings

  // ---------------------------------------------------------------------
  // --set KEY=VALUE

  /** The text before the first `=`, trimmed and lower-cased. */
  function SetKey(keyValue: string): (k: string)
    requires '=' in keyValue
    ensures exists rest :: keyValue == SplitOnce(keyValue, '=').0 + "=" + rest && k == Lower(Strip(SplitOnce(keyValue, '=').0))
  {
    var parts := SplitOnce(keyValue, '=');
    assert keyValue == parts.0 + "=" + parts.1;
    Lower(Strip(parts.0))
  }

  /** The text after the first `=`, trimmed. */
  function SetRaw(keyValue: string): (v: string)
    requires '=' in keyValue
    ensures exists a :: '=' !in a && keyValue == a + "=" + SplitOnce(keyValue, '=').1 && v == Strip(SplitOnce(keyValue, '=').1)
  {
    var parts := SplitOnce(keyValue, '=');
    assert keyValue == parts.0 + "=" + parts.1;
    Strip(parts.1)
  }

  datatype SetOutcome =
    | /** No `=` in the argument. */
      BadFormat
    | UnknownKey(key: string)
    | /** The setting is a number and the value is none. */
      NeedsInteger(key: string)
    | /** The new settings and the file text written, `None` when there is
          no project directory to write into. */
      Saved(settings: Settings, key: string, value: Value, file: Option<string>)

  /** `set_config`: split at the first `=`; an unknown key or a number
      setting given no number is refused and nothing changes; otherwise the
      value takes the setting's current type (a flag is on exactly for a
      truthy spelling) and the settings are written to the file. */
  function SetConfig(s: Settings, keyValue: string, env: map<string, string>): (r: SetOutcome)
    ensures r.BadFormat? <==> '=' !in keyValue
    ensures r.UnknownKey? <==> '=' in keyValue && !HasKey(s, SetKey(keyValue))
    ensures r.NeedsInteger? <==>
              '=' in keyValue && HasKey(s, SetKey(keyValue))
              && Get(s, SetKey(keyValue)).IntV? && ParseInt(SetRaw(keyValue)).None?
    ensures r.Saved? ==>
              && '=' in keyValue && r.key == SetKey(keyValue) && HasKey(s, r.key)
              && SameKind(r.value, Get(s, r.key))
              && (r.value.BoolV? ==> (r.value.b <==> Truthy(SetRaw(keyValue))))
              && (r.value.IntV? ==> ParseInt(SetRaw(keyValue)) == Some(r.value.n))
              && (r.value.StrV? ==> r.value.s == SetRaw(keyValue))
              && HasKey(r.settings, r.key) && Get(r.settings, r.key) == r.value
              && (forall x :: x != r.key ==> (HasKey(r.settings, x) <==> HasKey(s, x)))
              && (forall x :: x != r.key && HasKey(s, x) ==> Get(r.settings, x) == Get(s, x))
              && r.file == Save(env, r.settings)
  {
    if '=' !in keyValue then BadFormat
    else
      var key := SetKey(keyValue);
      var raw := SetRaw(keyValue);
      if !HasKey(s, key) then UnknownKey(key)
      else
        match Get(s, key)
        case BoolV(_) => Store(s, key, BoolV(Truthy(raw)), env)
        case IntV(_) =>
          (match ParseInt(raw)
           case None => NeedsInteger(key)
           case Some(n) => Store(s, key, IntV(n), env))
        case StrV(_) => Store(s, key, StrV(raw), env)
  }

  /** `set` followed by `save_to_file`. */
  function Store(s: Settings, key: string, value: Value, env: map<string, string>): (r: SetOutcome)
    ensures r.Saved? && r.key == key && r.value == value && r.settings == Assign(s, key, value)
    ensures r.file == Save(env, r.settings)
  {
    var t := Assign(s, key, value);
    Saved(t, key, value, Save(env, t))
  }

  /** A setting given with `--set` survives the next start: the settings
      keep their shape, and reading the file written back gives them
      again. */
  lemma SetConfigPersists(s: Settings, keyValue: string, env: map<string, string>)
    requires Shaped(s)
    requires SetConfig(s, keyValue, env).Saved?
    requires ProjectDirVar in env && env[ProjectDirVar] != ""
    ensures var r := SetConfig(s, keyValue, env);
            && Shaped(r.settings)
            && r.file == Some(SaveText(r.settings))
            && NewConfig(env, r.file) == r.settings
  {
    var r := SetConfig(s, keyValue, env);
    AssignKeepsShape(s, r.key, r.value);
    ReloadRestores(env, r.settings);
  }

  /** Setting a present key to a value of its type keeps the shape. */
  lemma AssignKeepsShape(s: Settings, key: string, v: Value)
    requires Shaped(s) && HasKey(s, key) && SameKind(v, Get(s, key))
    ensures Shaped(Assign(s, key, v))
  {
    var idx := OrderedMaps.IndexOf(s, key);
    var r := Assign(s, key, v);
    assert r == s[idx := (key, v)];
    forall i | 0 <= i < |r| ensures SameKind(r[i].1, Defaults[i].1) {
      if i == idx {
        assert SameKind(s[i].1, Defaults[i].1);
      }
    }
    assert Keys(r) == Keys(s) by {
      assert |Keys(r)| == |Keys(s)|;
      forall i | 0 <= i < |Keys(r)| ensures Keys(r)[i] == Keys(s)[i] {
        assert r[i].0 == s[i].0;
      }
    }
  }

  // ---------------------------------------------------------------------
  // --restore

  const BackupPrefix := "mcp_state_backup_"
  const BackupSuffix := ".db"

  /** The glob `mcp_state_backup_*.db`. */
  predicate IsStateBackup(name: string) {
    |name| >= |BackupPrefix| + |BackupSuffix| && BackupPrefix <= name && name[|name| - |BackupSuffix|..] == BackupSuffix
  }

  function Identity(s: string): string { s }

  /** `sorted(..., reverse=True)` on names of one directory: the same names,
      newest stamp first. */
  function NewestFirst(names: seq<string>): (r: seq<string>)
    ensures multiset(r) == multiset(names)
    ensures forall i, j :: 0 <= i < j < |r| ==> LexLe(r[j], r[i])
  {
    var up := SortLex(names, Identity);
    ReverseDescends(up);
    Reverse(up)
  }

  lemma ReverseDescends(up: seq<string>)
    requires SortedLex(up, Identity)
    ensures forall i, j :: 0 <= i < j < |Reverse(up)| ==> LexLe(Reverse(up)[j], Reverse(up)[i])
  {
    var r := Reverse(up);
    forall i, j | 0 <= i < j < |r| ensures LexLe(r[j], r[i]) {
      var p, q := |up| - 1 - j, |up| - 1 - i;
      assert r[j] == up[p] && r[i] == up[q];
      assert LexLe(Identity(up[p]), Identity(up[q]));
    }
  }

  /** The backups the interactive restore offers, numbered from 1. */
  function Offered(names: seq<string>): (r: seq<string>)
    ensures forall x :: x in r <==> x in names && IsStateBackup(x)
    ensures forall i, j :: 0 <= i < j < |r| ==> LexLe(r[j], r[i])
  {
    var backups := Filter(names, IsStateBackup);
    var r := NewestFirst(backups);
    assert forall x :: x in r <==> x in backups by {
      forall x ensures x in r <==> x in backups {
        assert x in r <==> x in multiset(r);
        assert x in backups <==> x in multiset(backups);
      }
    }
    r
  }

  datatype Pick =
    | Picked(name: string)
    | Cancelled
    | InvalidChoice
    | NoBackups
    | NotFound(name: string)

  /** The answer to "Enter backup number": `None` stands for end of input.
      `0` and anything that is no number cancel, `1`..`n` pick that entry,
      any other number is invalid. */
  function ChooseBackup(backups: seq<string>, answer: Option<string>): (r: Pick)
    ensures r.Cancelled? <==> answer.None? || ParseInt(answer.value) == None || ParseInt(answer.value) == Some(0)
    ensures r.Picked? <==> answer.Some? && exists k :: 1 <= k <= |backups| && ParseInt(answer.value) == Some(k)
    ensures r.Picked? ==> exists k :: 1 <= k <= |backups| && ParseInt(answer.value) == Some(k) && r.name == backups[k - 1]
    ensures r.Picked? || r.Cancelled? || r.InvalidChoice?
  {
    match answer
    case None => Cancelled
    case Some(a) =>
      match ParseInt(a)
      case None => Cancelled
      case Some(choice) =>
        if choice == 0 then Cancelled
        else if 1 <= choice <= |backups| then Picked(backups[choice - 1])
        else InvalidChoice
  }

  /** The backup `restore_backup` would copy over the database: a name
      given on the command line must exist in the directory (an empty name
      counts as none given); without one the user picks from the offered
      backups. */
  function PickBackup(given: Option<string>, names: seq<string>, answer: Option<string>): (r: Pick)
    ensures given.Some? && given.value != "" ==> (r.Picked? <==> given.value in names)
    ensures given.Some? && given.value != "" && r.Picked? ==> r.name == given.value
    ensures (given.None? || given.value == "") ==> (r.NoBackups? <==> forall x :: x in names ==> !IsStateBackup(x))
    ensures (given.None? || given.value == "") && r.Picked? ==> r.name in names && IsStateBackup(r.name)
  {
    if given.Some? && given.value != "" then
      if given.value in names then Picked(given.value) else NotFound(given.value)
    else
      var backups := Offered(names);
      if |backups| == 0 then NoBackups
      else
        var r := ChooseBackup(backups, answer);
        assert backups[0] in names && IsStateBackup(backups[0]);
        assert r.Picked? ==> r.name in backups;
        r
  }

  /** "Are you sure?": only `y` or `yes`, in any case and with any spacing,
      goes ahead; end of input does not. */
  predicate Confirmed(answer: Option<string>) {
    answer.Some? && Lower(Strip(answer.value)) in ["y", "yes"]
  }

  /** `restore_backup` with the file copies left out: the backup restored,
      if any. */
  function RestoreBackup(given: Option<string>, names: seq<string>, choice: Option<string>,
                         confirm: Option<string>): (r: Option<string>)
    ensures r.Some? <==> PickBackup(given, names, choice).Picked? && Confirmed(confirm)
    ensures r.Some? ==> r.value in names
  {
    match PickBackup(given, names, choice)
    case Picked(b) => if Confirmed(confirm) then Some(b) else None
    case _ => None
  }

  // ---------------------------------------------------------------------
  // A plain run

  datatype RunResult = RunResult(during: Settings, ok: bool, after: Settings)

  /** `run_migration`: `--force` turns `interactive` off and `--no-backup`
      turns `auto_backup` off while the migration runs; `migrate` stands for
      `ensure_database_current` on the settings it sees. The two originals
      are put back afterwards, whether the run succeeds, fails or exits. */
  function RunMigration(s: Settings, force: bool, noBackup: bool, migrate: Settings -> bool): (r: RunResult)
    requires HasKey(s, Interactive) && HasKey(s, AutoBackup)
    ensures force ==> HasKey(r.during, Interactive) && Get(r.during, Interactive) == BoolV(false)
    ensures noBackup ==> HasKey(r.during, AutoBackup) && Get(r.during, AutoBackup) == BoolV(false)
    ensures forall x :: x != Interactive && x != AutoBackup ==> (HasKey(r.during, x) <==> HasKey(s, x))
    ensures forall x :: x != Interactive && x != AutoBackup && HasKey(s, x) ==> Get(r.during, x) == Get(s, x)
    ensures r.ok == migrate(r.during)
    ensures r.after == s
  {
    var originalInteractive := Get(s, Interactive);
    var originalBackup := Get(s, AutoBackup);
    var s1 := if force then Assign(s, Interactive, BoolV(false)) else s;
    var during := if noBackup then Assign(s1, AutoBackup, BoolV(false)) else s1;
    var ok := migrate(during);
    var back := Assign(Assign(during, Interactive, originalInteractive), AutoBackup, originalBackup);
    RestoreOverrides(s, force, noBackup);
    RunResult(during, ok, back)
  }

  /** Putting a key back to the value it had before is undone exactly,
      because `set` on a present key keeps its place. */
  lemma PutBack(s: Settings, key: string, v: Value)
    requires HasKey(s, key)
    ensures Assign(Assign(s, key, v), key, Get(s, key)) == s
  {
    var idx := OrderedMaps.IndexOf(s, key);
    var t := Assign(s, key, v);
    IndexOfSameKeys(s, t, key);
    assert Assign(t, key, Get(s, key)) == s[idx := (key, v)][idx := s[idx]];
  }

  /** `set` on a key present at position `i` of a map with the same keys as
      `s` is an update at `i`. */
  lemma AssignAt(s: Settings, m: Settings, key: string, v: Value)
    requires Keys(m) == Keys(s) && HasKey(s, key)
    ensures Assign(m, key, v) == m[OrderedMaps.IndexOf(s, key) := (key, v)]
    ensures Keys(Assign(m, key, v)) == Keys(s)
  {
    IndexOfSameKeys(s, m, key);
  }

  /** The overrides of `run_migration` as sequence updates at the two keys'
      fixed positions. */
  lemma RestoreOverrides(s: Settings, force: bool, noBackup: bool)
    requires HasKey(s, Interactive) && HasKey(s, AutoBackup)
    ensures var s1 := if force then Assign(s, Interactive, BoolV(false)) else s;
            var during := if noBackup then Assign(s1, AutoBackup, BoolV(false)) else s1;
            Assign(Assign(during, Interactive, Get(s, Interactive)), AutoBackup, Get(s, AutoBackup)) == s
  {
    var i := OrderedMaps.IndexOf(s, Interactive);
    var b := OrderedMaps.IndexOf(s, AutoBackup);
    var s1 := if force then Assign(s, Interactive, BoolV(false)) else s;
    if force {
      AssignAt(s, s, Interactive, BoolV(false));
    }
    var during := if noBackup then Assign(s1, AutoBackup, BoolV(false)) else s1;
    if noBackup {
      AssignAt(s, s1, AutoBackup, BoolV(false));
    }
    assert Keys(during) == Keys(s);
    assert forall j :: 0 <= j < |s| && j != i && j != b ==> during[j] == s[j];
    AssignAt(s, during, Interactive, Get(s, Interactive));
    var t := Assign(during, Interactive, Get(s, Interactive));
    AssignAt(s, t, AutoBackup, Get(s, AutoBackup));
    var u := Assign(t, AutoBackup, Get(s, AutoBackup));
    assert u == during[i := s[i]][b := s[b]];
    UpdateBack(during, s, i, b);
  }

  lemma UpdateBack<T>(m: seq<T>, s: seq<T>, i: nat, b: nat)
    requires |m| == |s| && i < |s| && b < |s|
    requires forall j :: 0 <= j < |s| && j != i && j != b ==> m[j] == s[j]
    ensures m[i := s[i]][b := s[b]] == s
  {
    var u := m[i := s[i]][b := s[b]];
    forall j | 0 <= j < |s| ensures u[j] == s[j] {
      if j != i && j != b {
        assert u[j] == m[j];
      }
    }
  }
}
