/** `MigrationConfig`: eight migration settings with defaults, overridden
    first by `AGENT_MCP_MIGRATION_<KEY>` environment variables and then by
    the `key = value` lines of `<MCP_PROJECT_DIR>/.agent/migration.conf`,
    and written back to that file in the same format. */
module MigrationSettings {
  import opened Wrappers
  import opened Text
  import opened OrderedMaps
  import opened Sorting

  /** The setting values the configuration holds: Python `bool`, `int` and
      `str`. */
  datatype Value = BoolV(b: bool) | IntV(n: int) | StrV(s: string)

  type Settings = OMap<string, Value>

  const EnvPrefix := "AGENT_MCP_MIGRATION_"
  const ProjectDirVar := "MCP_PROJECT_DIR"

  const AutoMigrate := "auto_migrate"
  const AutoBackup := "auto_backup"
  const Interactive := "interactive"
  const BackupRetentionDays := "backup_retention_days"
  const PreserveHierarchies := "preserve_hierarchies"
  const ConsolidateWorkstreams := "consolidate_workstreams"
  const MinTasksPerWorkstream := "min_tasks_per_workstream"
  const MaxWorkstreamsPerPhase := "max_workstreams_per_phase"

  /** `DEFAULTS`, in its declaration order. */
  const Defaults: Settings := [
    (AutoMigrate, BoolV(true)),
    (AutoBackup, BoolV(true)),
    (Interactive, BoolV(true)),
    (BackupRetentionDays, IntV(7)),
    (PreserveHierarchies, BoolV(true)),
    (ConsolidateWorkstreams, BoolV(true)),
    (MinTasksPerWorkstream, IntV(5)),
    (MaxWorkstreamsPerPhase, IntV(7))
  ]

  /** Both values are of the same Python type. */
  predicate SameKind(a: Value, b: Value) {
    match (a, b)
    case (BoolV(_), BoolV(_)) => true
    case (IntV(_), IntV(_)) => true
    case (StrV(_), StrV(_)) => true
    case _ => false
  }

  /** The spellings that switch a flag on, after lower-casing. */
  predicate Truthy(raw: string) {
    Lower(raw) in ["true", "1", "yes", "on"]
  }

  /** The value a raw text gives a setting of `kind`'s type: a flag is on
      exactly for a truthy spelling, a number is parsed and a text that is no
      number leaves `fallback` in place, and any other setting takes the text
      as it is. */
  function Coerce(kind: Value, raw: string, fallback: Value): Value {
    match kind
    case BoolV(_) => BoolV(Truthy(raw))
    case IntV(_) => (match ParseInt(raw) case Some(n) => IntV(n) case None => fallback)
    case StrV(_) => StrV(raw)
  }

  lemma CoerceKeepsKind(kind: Value, raw: string, fallback: Value)
    requires SameKind(kind, fallback)
    ensures SameKind(Coerce(kind, raw, fallback), kind)
  {
  }

  // ---------------------------------------------------------------------
  // Environment

  function EnvVar(key: string): string {
    EnvPrefix + Upper(key)
  }

  /** One `DEFAULTS` entry's pass over the environment: a set variable
      replaces the setting, coerced to the default's type. */
  function EnvStep(s: Settings, d: (string, Value), env: map<string, string>): Settings {
    if EnvVar(d.0) in env then Put(s, d.0, Coerce(d.1, env[EnvVar(d.0)], GetOr(s, d.0, d.1)))
    else s
  }

  function EnvPass(s: Settings, ds: seq<(string, Value)>, env: map<string, string>): Settings
    decreases |ds|
  {
    if |ds| == 0 then s else EnvPass(EnvStep(s, ds[0], env), ds[1..], env)
  }

  /** What the environment makes of a setting whose value was `current`. */
  function EnvValue(d: (string, Value), env: map<string, string>, current: Value): Value {
    if EnvVar(d.0) in env then Coerce(d.1, env[EnvVar(d.0)], current) else current
  }

  /** `_load_from_environment` applied to the defaults. */
  function LoadEnv(env: map<string, string>): Settings {
    EnvPass(Defaults, Defaults, env)
  }

  /** One step keeps the keys and changes at most its own entry. */
  lemma EnvStepKeeps(s: Settings, d: (string, Value), env: map<string, string>)
    requires HasKey(s, d.0)
    ensures Keys(EnvStep(s, d, env)) == Keys(s)
    ensures forall x :: HasKey(EnvStep(s, d, env), x) <==> HasKey(s, x)
    ensures forall x :: x != d.0 && HasKey(s, x) ==> Get(EnvStep(s, d, env), x) == Get(s, x)
  {
    var s1 := EnvStep(s, d, env);
    assert Keys(s1) == Keys(s);
    forall x ensures HasKey(s1, x) <==> HasKey(s, x) {
      HasKeyIffInKeys(s, x);
      HasKeyIffInKeys(s1, x);
    }
    forall x | x != d.0 && HasKey(s, x) ensures Get(s1, x) == Get(s, x) {
      if EnvVar(d.0) in env {
        GetPutOther(s, d.0, Coerce(d.1, env[EnvVar(d.0)], GetOr(s, d.0, d.1)), x);
      }
    }
  }

  /** A pass over keys of `s` keeps the keys of `s`. */
  lemma {:induction false} EnvPassKeys(s: Settings, ds: seq<(string, Value)>, env: map<string, string>)
    requires forall i :: 0 <= i < |ds| ==> HasKey(s, ds[i].0)
    ensures Keys(EnvPass(s, ds, env)) == Keys(s)
    ensures forall x :: HasKey(EnvPass(s, ds, env), x) <==> HasKey(s, x)
    decreases |ds|
  {
    if |ds| > 0 {
      var s1 := EnvStep(s, ds[0], env);
      EnvStepKeeps(s, ds[0], env);
      forall i | 0 <= i < |ds[1..]| ensures HasKey(s1, ds[1..][i].0) {
        assert ds[1..][i] == ds[i + 1];
      }
      EnvPassKeys(s1, ds[1..], env);
    }
  }

  /** A pass leaves alone every setting it does not name. */
  lemma {:induction false} EnvPassOthers(s: Settings, ds: seq<(string, Value)>, env: map<string, string>, x: string)
    requires forall i :: 0 <= i < |ds| ==> HasKey(s, ds[i].0)
    requires HasKey(s, x) && forall i :: 0 <= i < |ds| ==> ds[i].0 != x
    ensures HasKey(EnvPass(s, ds, env), x) && Get(EnvPass(s, ds, env), x) == Get(s, x)
    decreases |ds|
  {
    if |ds| > 0 {
      var s1 := EnvStep(s, ds[0], env);
      EnvStepKeeps(s, ds[0], env);
      forall i | 0 <= i < |ds[1..]| ensures HasKey(s1, ds[1..][i].0) && ds[1..][i].0 != x {
        assert ds[1..][i] == ds[i + 1];
      }
      EnvPassOthers(s1, ds[1..], env, x);
    }
  }

  /** A pass over entries with distinct keys that all exist in `s` gives
      each of them its environment value and touches nothing else. */
  lemma {:induction false} EnvPassValues(s: Settings, ds: seq<(string, Value)>, env: map<string, string>)
    requires UniqueKeys(ds)
    requires forall i :: 0 <= i < |ds| ==> HasKey(s, ds[i].0)
    ensures Keys(EnvPass(s, ds, env)) == Keys(s)
    ensures forall i :: 0 <= i < |ds| ==>
              HasKey(EnvPass(s, ds, env), ds[i].0) && Get(EnvPass(s, ds, env), ds[i].0) == EnvValue(ds[i], env, Get(s, ds[i].0))
    ensures forall x :: HasKey(s, x) && (forall i :: 0 <= i < |ds| ==> ds[i].0 != x) ==>
              HasKey(EnvPass(s, ds, env), x) && Get(EnvPass(s, ds, env), x) == Get(s, x)
    decreases |ds|
  {
    EnvPassKeys(s, ds, env);
    forall x | HasKey(s, x) && (forall i :: 0 <= i < |ds| ==> ds[i].0 != x)
      ensures HasKey(EnvPass(s, ds, env), x) && Get(EnvPass(s, ds, env), x) == Get(s, x)
    {
      EnvPassOthers(s, ds, env, x);
    }
    if |ds| > 0 {
      var d := ds[0];
      var s1 := EnvStep(s, d, env);
      EnvStepKeeps(s, d, env);
      forall i | 0 <= i < |ds[1..]| ensures HasKey(s1, ds[1..][i].0) {
        assert ds[1..][i] == ds[i + 1];
      }
      EnvPassValues(s1, ds[1..], env);
      var r := EnvPass(s, ds, env);
      assert r == EnvPass(s1, ds[1..], env);
      forall i | 0 <= i < |ds| ensures HasKey(r, ds[i].0) && Get(r, ds[i].0) == EnvValue(ds[i], env, Get(s, ds[i].0)) {
        if i == 0 {
          assert forall j :: 0 <= j < |ds[1..]| ==> ds[1..][j].0 != d.0;
        } else {
          assert ds[1..][i - 1] == ds[i];
        }
      }
    }
  }

  lemma DefaultsUnique()
    ensures UniqueKeys(Defaults)
  {
  }

  /** `_load_from_environment`: the settings keep the default keys in order,
      and each holds its environment value, coerced to the default's type,
      or its default when the variable is unset or not a number. */
  lemma LoadEnvValues(env: map<string, string>)
    ensures Keys(LoadEnv(env)) == Keys(Defaults)
    ensures forall i :: 0 <= i < |Defaults| ==>
              LoadEnv(env)[i] == (Defaults[i].0, EnvValue(Defaults[i], env, Defaults[i].1))
  {
    DefaultsUnique();
    forall i | 0 <= i < |Defaults| ensures HasKey(Defaults, Defaults[i].0) {
    }
    EnvPassValues(Defaults, Defaults, env);
    var r := LoadEnv(env);
    forall i | 0 <= i < |Defaults|
      ensures r[i] == (Defaults[i].0, EnvValue(Defaults[i], env, Defaults[i].1))
    {
      GetUnique(Defaults, i);
      assert Keys(r)[i] == Keys(Defaults)[i];
      assert UniqueKeys(r) by {
        forall p, q | 0 <= p < q < |r| ensures r[p].0 != r[q].0 {
          assert Keys(r)[p] == Keys(Defaults)[p] && Keys(r)[q] == Keys(Defaults)[q];
        }
      }
      GetUnique(r, i);
    }
  }

  /** Settings with the default keys, in order, each of its default's
      type. */
  ghost predicate Shaped(s: Settings) {
    Keys(s) == Keys(Defaults) && forall i :: 0 <= i < |s| ==> SameKind(s[i].1, Defaults[i].1)
  }

  lemma ShapedUnique(s: Settings)
    requires Shaped(s)
    ensures UniqueKeys(s)
  {
    DefaultsUnique();
    forall p, q | 0 <= p < q < |s| ensures s[p].0 != s[q].0 {
      assert Keys(s)[p] == Keys(Defaults)[p] && Keys(s)[q] == Keys(Defaults)[q];
    }
  }

  /** The environment never changes a setting's type. */
  lemma LoadEnvShaped(env: map<string, string>)
    ensures Shaped(LoadEnv(env))
  {
    LoadEnvValues(env);
    var r := LoadEnv(env);
    forall i | 0 <= i < |r| ensures SameKind(r[i].1, Defaults[i].1) {
      if EnvVar(Defaults[i].0) in env {
        CoerceKeepsKind(Defaults[i].1, env[EnvVar(Defaults[i].0)], Defaults[i].1);
      }
    }
  }

  // ---------------------------------------------------------------------
  // The configuration file

  /** A `key = value` line's effect: a known key takes the value, coerced
      to the setting's current type; an unknown key is ignored. */
  function ApplySetting(s: Settings, key: string, raw: string): Settings {
    if HasKey(s, key) then Put(s, key, Coerce(Get(s, key), raw, Get(s, key))) else s
  }

  /** The text around the first `=` of a line: the key stripped and
      lower-cased, the value stripped. */
  function ApplyPair(s: Settings, kv: (string, string)): Settings {
    ApplySetting(s, Lower(Strip(kv.0)), Strip(kv.1))
  }

  /** A stripped line: blank lines, `#` comments and lines without `=`
      change nothing. */
  function ApplyStripped(s: Settings, t: string): Settings {
    if |t| == 0 || t[0] == '#' || '=' !in t then s else ApplyPair(s, SplitOnce(t, '='))
  }

  /** One line of the file. */
  function ApplyLine(s: Settings, line: string): Settings {
    ApplyStripped(s, Strip(line))
  }

  function Fold(s: Settings, lines: seq<string>, step: (Settings, string) -> Settings): Settings
    decreases |lines|
  {
    if |lines| == 0 then s else Fold(step(s, lines[0]), lines[1..], step)
  }

  function LoadLines(s: Settings, lines: seq<string>): Settings {
    Fold(s, lines, ApplyLine)
  }

  /** `_load_from_config_file` on the file's text. */
  function LoadFile(s: Settings, text: string): Settings {
    LoadLines(s, Split(text, '\n'))
  }

  lemma {:induction false} FoldConcat(s: Settings, a: seq<string>, b: seq<string>, step: (Settings, string) -> Settings)
    ensures Fold(s, a + b, step) == Fold(Fold(s, a, step), b, step)
    decreases |a|
  {
    if |a| > 0 {
      assert (a + b)[0] == a[0];
      assert (a + b)[1..] == a[1..] + b;
      FoldConcat(step(s, a[0]), a[1..], b, step);
    } else {
      assert a + b == b;
    }
  }

  lemma LoadLinesConcat(s: Settings, a: seq<string>, b: seq<string>)
    ensures LoadLines(s, a + b) == LoadLines(LoadLines(s, a), b)
  {
    FoldConcat(s, a, b, ApplyLine);
  }

  lemma LoadLine(s: Settings, line: string)
    ensures LoadLines(s, [line]) == ApplyLine(s, line)
  {
    assert [line][1..] == [];
    assert Fold(s, [line], ApplyLine) == Fold(ApplyLine(s, line), [], ApplyLine);
  }

  /** A setting line never adds or removes a setting, nor changes a
      setting's type. */
  lemma ApplySettingKeepsShape(s: Settings, key: string, raw: string)
    ensures Keys(ApplySetting(s, key, raw)) == Keys(s)
    ensures forall i :: 0 <= i < |s| ==> SameKind(ApplySetting(s, key, raw)[i].1, s[i].1)
  {
    if HasKey(s, key) {
      var current := Get(s, key);
      var r := Put(s, key, Coerce(current, raw, current));
      var idx := OrderedMaps.IndexOf(s, key);
      CoerceKeepsKind(current, raw, current);
      forall i | 0 <= i < |s| ensures SameKind(r[i].1, s[i].1) {
        if i != idx {
          assert r[i] == s[i];
        }
      }
    }
  }

  lemma ApplyLineKeepsShape(s: Settings, line: string)
    ensures Keys(ApplyLine(s, line)) == Keys(s)
    ensures forall i :: 0 <= i < |s| ==> SameKind(ApplyLine(s, line)[i].1, s[i].1)
  {
    var t := Strip(line);
    if |t| > 0 && t[0] != '#' && '=' in t {
      var kv := SplitOnce(t, '=');
      ApplySettingKeepsShape(s, Lower(Strip(kv.0)), Strip(kv.1));
    }
  }

  lemma {:induction false} LoadLinesKeepsShape(s: Settings, lines: seq<string>)
    ensures Keys(LoadLines(s, lines)) == Keys(s)
    ensures forall i :: 0 <= i < |s| ==> SameKind(LoadLines(s, lines)[i].1, s[i].1)
    decreases |lines|
  {
    if |lines| > 0 {
      var s1 := ApplyLine(s, lines[0]);
      ApplyLineKeepsShape(s, lines[0]);
      LoadLinesKeepsShape(s1, lines[1..]);
      var r := LoadLines(s, lines);
      assert r == LoadLines(s1, lines[1..]);
      forall i | 0 <= i < |s| ensures SameKind(r[i].1, s[i].1) {
        SameKindTrans(r[i].1, s1[i].1, s[i].1);
      }
    }
  }

  /** Loading a file into settings of the default shape keeps that shape. */
  lemma LoadFileShaped(s: Settings, text: string)
    requires Shaped(s)
    ensures Shaped(LoadFile(s, text))
  {
    var r := LoadFile(s, text);
    LoadLinesKeepsShape(s, Split(text, '\n'));
    forall i | 0 <= i < |r| ensures SameKind(r[i].1, Defaults[i].1) {
      SameKindTrans(r[i].1, s[i].1, Defaults[i].1);
    }
  }

  lemma SameKindTrans(a: Value, b: Value, c: Value)
    requires SameKind(a, b) && SameKind(b, c)
    ensures SameKind(a, c)
  {
  }

  /** `MigrationConfig()`: the defaults, then the environment, then the file
      when `MCP_PROJECT_DIR` names a directory and the file exists (`file`
      is its text, `None` when it is missing). */
  function NewConfig(env: map<string, string>, file: Option<string>): (r: Settings)
    ensures Shaped(r)
    ensures ProjectDirVar !in env || env[ProjectDirVar] == "" || file.None? ==> r == LoadEnv(env)
  {
    var s := LoadEnv(env);
    LoadEnvShaped(env);
    if ProjectDirVar !in env || env[ProjectDirVar] == "" then s
    else
      match file
      case None => s
      case Some(text) =>
        LoadFileShaped(s, text);
        LoadFile(s, text)
  }

  // ---------------------------------------------------------------------
  // get / set

  /** `get(key, default)`. */
  function Lookup(s: Settings, key: string, default: Value): (v: Value)
    ensures HasKey(s, key) ==> v == Get(s, key)
    ensures !HasKey(s, key) ==> v == default
  {
    GetOr(s, key, default)
  }

  /** `set(key, value)`: the key now holds `value`, and every other key is
      present and valued exactly as before. */
  function Assign(s: Settings, key: string, value: Value): (r: Settings)
    ensures HasKey(r, key) && Get(r, key) == value
    ensures forall x :: x != key ==> (HasKey(r, x) <==> HasKey(s, x))
    ensures forall x :: x != key && HasKey(s, x) ==> Get(r, x) == Get(s, x)
  {
    var r := Put(s, key, value);
    forall x | x != key ensures (HasKey(r, x) <==> HasKey(s, x)) && (HasKey(s, x) ==> Get(r, x) == Get(s, x)) {
      GetPutOther(s, key, value, x);
    }
    r
  }

  // ---------------------------------------------------------------------
  // Saving

  /** A `# ` comment line of the file. */
  function Comment(body: string): string {
    "# " + body
  }

  /** The comment explaining a setting. */
  function KeyComment(key: string, text: string): string {
    Comment(key + ": " + text)
  }

  // The longer texts are written in two pieces, which the verifier can
  // inspect character by character.
  const HeaderTitle := Comment("Agent MCP Migration Configuration")
  const HeaderNote := Comment("Generated automatically" + " - modify as needed")
  const AutoMigrateComment := KeyComment(AutoMigrate, "Automatically run " + "migrations on startup")
  const InteractiveComment := KeyComment(Interactive, "Ask for confirmation " + "before migrating")
  const MinTasksComment := KeyComment(MinTasksPerWorkstream, "Minimum tasks for " + "a standalone workstream")

  function ValueText(v: Value): string {
    match v
    case BoolV(b) => if b then "true" else "false"
    case IntV(n) => IntToString(n)
    case StrV(t) => t
  }

  /** The explanatory comment written after three of the settings. */
  function CommentLines(key: string): seq<string> {
    if key == AutoMigrate then [AutoMigrateComment]
    else if key == Interactive then [InteractiveComment]
    else if key == MinTasksPerWorkstream then [MinTasksComment]
    else []
  }

  function SettingLine(key: string, v: Value): string {
    key + " = " + ValueText(v)
  }

  /** One setting's block: its line, its comment if any, a blank line. */
  function EntryLines(e: (string, Value)): seq<string> {
    [SettingLine(e.0, e.1)] + CommentLines(e.0) + [""]
  }

  function EntriesLines(es: seq<(string, Value)>): seq<string>
    decreases |es|
  {
    if |es| == 0 then [] else EntryLines(es[0]) + EntriesLines(es[1..])
  }

  function EntryKey(e: (string, Value)): string {
    e.0
  }

  /** The settings in key order, as `sorted(self.settings.items())` lists
      them. */
  function SortedEntries(s: Settings): (r: seq<(string, Value)>)
    ensures SortedLex(r, EntryKey)
    ensures multiset(r) == multiset(s)
  {
    SortLex(s, EntryKey)
  }

  /** The file's lines; the text ends in a newline, hence the last empty
      line. */
  function SavedLines(s: Settings): seq<string> {
    [HeaderTitle, HeaderNote, ""] + EntriesLines(SortedEntries(s)) + [""]
  }

  /** The text `save_to_file` writes. */
  function SaveText(s: Settings): string {
    Join(SavedLines(s), "\n")
  }

  /** `save_to_file`: the text written, or `None` when `MCP_PROJECT_DIR` is
      unset or empty and nothing is written. */
  function Save(env: map<string, string>, s: Settings): (r: Option<string>)
    ensures r.Some? <==> ProjectDirVar in env && env[ProjectDirVar] != ""
    ensures r.Some? ==> r.value == SaveText(s)
  {
    if ProjectDirVar !in env || env[ProjectDirVar] == "" then None else Some(SaveText(s))
  }

  // ---------------------------------------------------------------------
  // Saving and loading again

  predicate KeyChar(c: char) {
    'a' <= c <= 'z' || c == '_'
  }

  /** A key the file format carries unchanged: lower-case letters and
      underscores, as every default key is. */
  predicate CleanKey(k: string) {
    |k| > 0 && forall i :: 0 <= i < |k| ==> KeyChar(k[i])
  }

  lemma CleanKeyShape(k: string)
    requires CleanKey(k)
    ensures Lower(k) == k && !IsSpace(k[0]) && !IsSpace(k[|k| - 1])
    ensures k[0] != '#' && '=' !in k && '\n' !in k
  {
  }

  /** A value the file format carries unchanged: flags and numbers always,
      texts when they have no line break and no whitespace border. */
  predicate CleanValue(v: Value) {
    v.StrV? ==> '\n' !in v.s && (|v.s| == 0 || (!IsSpace(v.s[0]) && !IsSpace(v.s[|v.s| - 1])))
  }

  lemma ValueTextShape(v: Value)
    requires CleanValue(v)
    ensures '\n' !in ValueText(v)
    ensures |ValueText(v)| == 0 || (!IsSpace(ValueText(v)[0]) && !IsSpace(ValueText(v)[|ValueText(v)| - 1]))
    ensures |ValueText(v)| == 0 ==> v == StrV("")
  {
    match v
    case BoolV(b) =>
    case IntV(n) =>
      var m: nat := if n < 0 then -n else n;
      var digits := NatToString(m);
      assert IsDigit(digits[|digits| - 1]) && IsDigit(digits[0]);
      if n < 0 {
        assert ValueText(v) == "-" + digits;
      }
    case StrV(t) =>
  }

  /** Reading a value's own text back into a setting of its type gives the
      value. */
  lemma CoerceValueText(current: Value, v: Value)
    requires SameKind(current, v)
    ensures Coerce(current, ValueText(v), current) == v
  {
    match v
    case BoolV(b) =>
      assert Lower("true") == "true";
      assert Lower("false") == "false";
    case IntV(n) =>
      ParseIntToString(n);
    case StrV(t) =>
  }

  /** The key part of a setting line, `key ` before the `=`, reads as the
      key. */
  lemma KeyPartRead(k: string)
    requires CleanKey(k)
    ensures Lower(Strip(k + " ")) == k
    ensures '=' !in k + " "
  {
    CleanKeyShape(k);
    StripPadded("", k, " ");
    assert "" + k + " " == k + " ";
  }

  /** A setting line, stripped, and the parts around its first `=`. */
  lemma SettingLineParts(k: string, vt: string)
    requires CleanKey(k)
    requires |vt| == 0 || (!IsSpace(vt[0]) && !IsSpace(vt[|vt| - 1]))
    ensures |Strip(k + " = " + vt)| > 0 && Strip(k + " = " + vt)[0] == k[0]
    ensures '=' in Strip(k + " = " + vt)
    ensures SplitOnce(Strip(k + " = " + vt), '=') == (k + " ", if |vt| == 0 then "" else " " + vt)
  {
    CleanKeyShape(k);
    var rest := if |vt| == 0 then "" else " " + vt;
    var stripped := k + " " + ['='] + rest;
    LineStripped(k, vt, rest, stripped);
    LineSplit(k, rest, stripped);
  }

  lemma LineStripped(k: string, vt: string, rest: string, stripped: string)
    requires CleanKey(k)
    requires |vt| == 0 || (!IsSpace(vt[0]) && !IsSpace(vt[|vt| - 1]))
    requires rest == (if |vt| == 0 then "" else " " + vt) && stripped == k + " " + ['='] + rest
    ensures Strip(k + " = " + vt) == stripped
  {
    if |vt| == 0 {
      assert stripped == k + " =" && k + " = " + vt == k + " = ";
      LineStrippedBare(k, stripped);
    } else {
      assert stripped == k + " = " + vt;
      LineStrippedValue(k, vt);
    }
  }

  lemma LineStrippedBare(k: string, stripped: string)
    requires CleanKey(k) && stripped == k + " ="
    ensures Strip(k + " = ") == stripped
  {
    CleanKeyShape(k);
    StripPadded("", stripped, " ");
    assert "" + stripped + " " == k + " = ";
  }

  lemma LineStrippedValue(k: string, vt: string)
    requires CleanKey(k) && |vt| > 0 && !IsSpace(vt[0]) && !IsSpace(vt[|vt| - 1])
    ensures Strip(k + " = " + vt) == k + " = " + vt
  {
    CleanKeyShape(k);
    var line := k + " = " + vt;
    assert line[0] == k[0] && line[|line| - 1] == vt[|vt| - 1];
    StripNoBorder(line);
  }

  lemma LineSplit(k: string, rest: string, stripped: string)
    requires CleanKey(k) && stripped == k + " " + ['='] + rest
    ensures |stripped| > 0 && stripped[0] == k[0] && '=' in stripped
    ensures SplitOnce(stripped, '=') == (k + " ", rest)
  {
    CleanKeyShape(k);
    SplitOnceOf(k + " ", '=', rest);
  }

  lemma ValuePartRead(vt: string)
    requires |vt| == 0 || (!IsSpace(vt[0]) && !IsSpace(vt[|vt| - 1]))
    ensures Strip(if |vt| == 0 then "" else " " + vt) == vt
  {
    if |vt| > 0 {
      StripPadded(" ", vt, "");
      assert " " + vt + "" == " " + vt;
    }
  }

  /** A setting line is read as its key and its value text. */
  lemma SettingLineSplits(s: Settings, k: string, vt: string)
    requires CleanKey(k)
    requires |vt| == 0 || (!IsSpace(vt[0]) && !IsSpace(vt[|vt| - 1]))
    ensures ApplyLine(s, k + " = " + vt) == ApplySetting(s, k, vt)
  {
    CleanKeyShape(k);
    SettingLineParts(k, vt);
    KeyPartRead(k);
    ValuePartRead(vt);
    StrippedSettingApplies(s, Strip(k + " = " + vt), k, vt);
  }

  lemma StrippedSettingApplies(s: Settings, t: string, k: string, vt: string)
    requires |t| > 0 && t[0] != '#' && '=' in t
    requires Lower(Strip(SplitOnce(t, '=').0)) == k && Strip(SplitOnce(t, '=').1) == vt
    ensures ApplyStripped(s, t) == ApplySetting(s, k, vt)
  {
  }

  /** A written setting line is read back as that setting. */
  lemma SettingLineRead(s: Settings, k: string, v: Value)
    requires CleanKey(k) && CleanValue(v)
    requires HasKey(s, k) && SameKind(Get(s, k), v)
    ensures ApplyLine(s, SettingLine(k, v)) == Put(s, k, v)
  {
    ValueTextShape(v);
    SettingLineSplits(s, k, ValueText(v));
    CoerceValueText(Get(s, k), v);
  }

  /** A fixed line of the file that loading passes over: a `#` comment
      without a line break or a trailing blank. */
  predicate CommentText(c: string) {
    |c| > 0 && c[0] == '#' && !IsSpace(c[|c| - 1]) && '\n' !in c
  }

  lemma FixedLinesAreComments()
    ensures CommentText(HeaderTitle) && CommentText(HeaderNote)
    ensures CommentText(AutoMigrateComment) && CommentText(InteractiveComment) && CommentText(MinTasksComment)
  {
  }

  /** A comment line passes unread. */
  lemma CommentSkipped(s: Settings, c: string)
    requires CommentText(c)
    ensures ApplyLine(s, c) == s
    ensures LoadLines(s, [c]) == s
  {
    StripNoBorder(c);
    LoadLine(s, c);
  }

  lemma CommentsSkipped(s: Settings, k: string)
    ensures LoadLines(s, CommentLines(k)) == s
    ensures forall j :: 0 <= j < |CommentLines(k)| ==> '\n' !in CommentLines(k)[j]
  {
    CommentLinesAreComments(k);
    CommentBlockSkipped(s, CommentLines(k));
  }

  /** A setting's comment block is at most one comment line. */
  lemma CommentLinesAreComments(k: string)
    ensures |CommentLines(k)| <= 1
    ensures forall j :: 0 <= j < |CommentLines(k)| ==> CommentText(CommentLines(k)[j])
  {
    FixedLinesAreComments();
  }

  lemma CommentBlockSkipped(s: Settings, cs: seq<string>)
    requires |cs| <= 1 && forall j :: 0 <= j < |cs| ==> CommentText(cs[j])
    ensures LoadLines(s, cs) == s
  {
    if |cs| == 1 {
      CommentSkipped(s, cs[0]);
      assert cs == [cs[0]];
    }
  }

  lemma EntryLinesRead(s: Settings, k: string, v: Value)
    requires CleanKey(k) && CleanValue(v)
    requires HasKey(s, k) && SameKind(Get(s, k), v)
    ensures LoadLines(s, EntryLines((k, v))) == Put(s, k, v)
  {
    SettingLineRead(s, k, v);
    CommentsSkipped(Put(s, k, v), k);
    BlockRead(s, SettingLine(k, v), CommentLines(k), Put(s, k, v));
    assert EntryLines((k, v)) == [SettingLine(k, v)] + (CommentLines(k) + [""]);
  }

  /** A line that reads as `s1`, lines that leave `s1` alone and a blank
      line read as `s1`. */
  lemma BlockRead(s: Settings, line: string, cs: seq<string>, s1: Settings)
    requires ApplyLine(s, line) == s1 && LoadLines(s1, cs) == s1
    ensures LoadLines(s, [line] + (cs + [""])) == s1
  {
    LoadLinesConcat(s, [line], cs + [""]);
    LoadLinesConcat(s1, cs, [""]);
  }

  /** Entries that can all be written and read back into `s`. */
  ghost predicate Readable(s: Settings, es: seq<(string, Value)>) {
    forall i :: 0 <= i < |es| ==>
      CleanKey(es[i].0) && CleanValue(es[i].1) && HasKey(s, es[i].0) && SameKind(Get(s, es[i].0), es[i].1)
  }

  /** `d[k] = v` for each entry in turn. */
  function PutAll(s: Settings, es: seq<(string, Value)>): Settings
    decreases |es|
  {
    if |es| == 0 then s else PutAll(Put(s, es[0].0, es[0].1), es[1..])
  }

  /** Assigning distinct keys that all exist gives each its value and
      leaves every other key as it was. */
  lemma {:induction false} PutAllValues(s: Settings, es: seq<(string, Value)>)
    requires UniqueKeys(es)
    requires forall i :: 0 <= i < |es| ==> HasKey(s, es[i].0)
    ensures Keys(PutAll(s, es)) == Keys(s)
    ensures forall i :: 0 <= i < |es| ==> HasKey(PutAll(s, es), es[i].0) && Get(PutAll(s, es), es[i].0) == es[i].1
    ensures forall x :: HasKey(s, x) && (forall i :: 0 <= i < |es| ==> es[i].0 != x) ==>
              HasKey(PutAll(s, es), x) && Get(PutAll(s, es), x) == Get(s, x)
    decreases |es|
  {
    if |es| > 0 {
      var k := es[0].0;
      var s1 := Put(s, k, es[0].1);
      var rest := es[1..];
      forall x | x != k && HasKey(s, x) ensures HasKey(s1, x) && Get(s1, x) == Get(s, x) {
        GetPutOther(s, k, es[0].1, x);
      }
      forall i | 0 <= i < |rest| ensures HasKey(s1, rest[i].0) {
        assert rest[i] == es[i + 1];
      }
      PutAllValues(s1, rest);
      var r := PutAll(s, es);
      assert r == PutAll(s1, rest);
      forall i | 0 <= i < |es| ensures HasKey(r, es[i].0) && Get(r, es[i].0) == es[i].1 {
        if i == 0 {
          assert forall j :: 0 <= j < |rest| ==> rest[j].0 != k;
        } else {
          assert rest[i - 1] == es[i];
        }
      }
      forall x | HasKey(s, x) && (forall i :: 0 <= i < |es| ==> es[i].0 != x)
        ensures HasKey(r, x) && Get(r, x) == Get(s, x)
      {
        assert forall j :: 0 <= j < |rest| ==> rest[j] == es[j + 1];
      }
    }
  }

  lemma ReadableAfterPut(s: Settings, es: seq<(string, Value)>)
    requires UniqueKeys(es) && Readable(s, es) && |es| > 0
    ensures UniqueKeys(es[1..]) && Readable(Put(s, es[0].0, es[0].1), es[1..])
  {
    var rest := es[1..];
    forall i | 0 <= i < |rest|
      ensures HasKey(Put(s, es[0].0, es[0].1), rest[i].0)
      ensures Get(Put(s, es[0].0, es[0].1), rest[i].0) == Get(s, rest[i].0)
    {
      assert rest[i] == es[i + 1];
      GetPutOther(s, es[0].0, es[0].1, rest[i].0);
    }
  }

  /** Reading the written blocks of distinct settings assigns each setting
      its written value, in the order written. */
  lemma {:induction false} EntriesRead(s: Settings, es: seq<(string, Value)>)
    requires UniqueKeys(es) && Readable(s, es)
    ensures LoadLines(s, EntriesLines(es)) == PutAll(s, es)
    decreases |es|
  {
    if |es| > 0 {
      var k := es[0].0;
      var s1 := Put(s, k, es[0].1);
      EntryLinesRead(s, k, es[0].1);
      LoadLinesConcat(s, EntryLines(es[0]), EntriesLines(es[1..]));
      ReadableAfterPut(s, es);
      EntriesRead(s1, es[1..]);
    }
  }

  lemma HeaderSkipped(s: Settings)
    ensures LoadLines(s, [HeaderTitle, HeaderNote, ""]) == s
  {
    FixedLinesAreComments();
    CommentSkipped(s, HeaderTitle);
    CommentSkipped(s, HeaderNote);
    LoadLinesConcat(s, [HeaderTitle], [HeaderNote] + [""]);
    LoadLinesConcat(s, [HeaderNote], [""]);
    LoadLine(s, "");
    assert [HeaderTitle, HeaderNote, ""] == [HeaderTitle] + ([HeaderNote] + [""]);
  }

  lemma SavedLinesSplit(s: Settings)
    requires forall i :: 0 <= i < |s| ==> CleanKey(s[i].0) && CleanValue(s[i].1)
    ensures Split(SaveText(s), '\n') == SavedLines(s)
  {
    var es := SortedEntries(s);
    forall i | 0 <= i < |es| ensures CleanKey(es[i].0) && CleanValue(es[i].1) {
      assert es[i] in multiset(s);
    }
    EntriesNoNewline(es);
    var lines := SavedLines(s);
    FixedLinesAreComments();
    forall i | 0 <= i < |lines| ensures '\n' !in lines[i] {
      if 3 <= i < |lines| - 1 {
        assert lines[i] == EntriesLines(es)[i - 3];
      }
    }
    SplitJoin(lines, '\n');
  }

  lemma {:induction false} EntriesNoNewline(es: seq<(string, Value)>)
    requires forall i :: 0 <= i < |es| ==> CleanKey(es[i].0) && CleanValue(es[i].1)
    ensures forall j :: 0 <= j < |EntriesLines(es)| ==> '\n' !in EntriesLines(es)[j]
    decreases |es|
  {
    if |es| > 0 {
      ValueTextShape(es[0].1);
      CleanKeyShape(es[0].0);
      CommentsSkipped([], es[0].0);
      var head := EntryLines(es[0]);
      assert '\n' !in SettingLine(es[0].0, es[0].1);
      assert forall j :: 0 <= j < |head| ==> '\n' !in head[j] by {
        forall j | 0 <= j < |head| ensures '\n' !in head[j] {
          if 0 < j < |head| - 1 {
            assert head[j] == CommentLines(es[0].0)[j - 1];
          }
        }
      }
      EntriesNoNewline(es[1..]);
      var all := EntriesLines(es);
      forall j | 0 <= j < |all| ensures '\n' !in all[j] {
        if j >= |head| {
          assert all[j] == EntriesLines(es[1..])[j - |head|];
        }
      }
    }
  }

  /** The saved file's lines are read as the sorted settings, assigned in
      turn; the header and the blank lines change nothing. */
  lemma SavedLinesRead(s: Settings, t: Settings)
    requires UniqueKeys(SortedEntries(s)) && Readable(t, SortedEntries(s))
    ensures LoadLines(t, SavedLines(s)) == PutAll(t, SortedEntries(s))
  {
    var es := SortedEntries(s);
    HeaderSkipped(t);
    LoadLinesConcat(t, [HeaderTitle, HeaderNote, ""], EntriesLines(es) + [""]);
    LoadLinesConcat(t, EntriesLines(es), [""]);
    assert SavedLines(s) == [HeaderTitle, HeaderNote, ""] + (EntriesLines(es) + [""]);
    EntriesRead(t, es);
    LoadLine(PutAll(t, es), "");
  }

  /** Loading the saved text into settings that have every saved key, each
      of the saved value's type, gives every saved key its saved value and
      leaves the set of keys as it was. */
  lemma SaveThenLoad(s: Settings, t: Settings)
    requires UniqueKeys(s) && Readable(t, s)
    ensures Keys(LoadFile(t, SaveText(s))) == Keys(t)
    ensures forall i :: 0 <= i < |s| ==>
              HasKey(LoadFile(t, SaveText(s)), s[i].0) && Get(LoadFile(t, SaveText(s)), s[i].0) == s[i].1
  {
    var es := SortedEntries(s);
    UniqueKeysPermutation(s, es);
    forall i | 0 <= i < |es|
      ensures CleanKey(es[i].0) && CleanValue(es[i].1) && HasKey(t, es[i].0) && SameKind(Get(t, es[i].0), es[i].1)
    {
      assert es[i] in multiset(s);
    }
    SavedLinesSplit(s);
    SavedLinesRead(s, t);
    PutAllValues(t, es);
    var r := LoadFile(t, SaveText(s));
    assert r == PutAll(t, es);
    forall i | 0 <= i < |s| ensures HasKey(r, s[i].0) && Get(r, s[i].0) == s[i].1 {
      assert s[i] in multiset(es);
    }
  }

  /** Settings of the default shape can be written and read back into
      any settings of that shape. */
  lemma ShapedReadable(s: Settings, t: Settings)
    requires Shaped(s) && Shaped(t)
    ensures Readable(t, s)
  {
    ShapedUnique(t);
    DefaultKeysClean(Defaults);
    forall i | 0 <= i < |s|
      ensures CleanKey(s[i].0) && CleanValue(s[i].1) && HasKey(t, s[i].0) && SameKind(Get(t, s[i].0), s[i].1)
    {
      assert Keys(s)[i] == Keys(Defaults)[i] && Keys(t)[i] == Keys(Defaults)[i];
      GetUnique(t, i);
    }
  }

  /** Saving any settings the program can hold and constructing the
      configuration again from that file restores them exactly, whatever the
      environment says: the file is read after the environment and
      overrides it. */
  lemma ReloadRestores(env: map<string, string>, s: Settings)
    requires Shaped(s)
    requires ProjectDirVar in env && env[ProjectDirVar] != ""
    ensures NewConfig(env, Some(SaveText(s))) == s
  {
    LoadEnvShaped(env);
    ReloadInto(s, LoadEnv(env), NewConfig(env, Some(SaveText(s))));
  }

  /** Saved settings of the default shape, loaded over any settings of
      that shape, are read back exactly. */
  lemma ReloadInto(s: Settings, t: Settings, r: Settings)
    requires Shaped(s) && Shaped(t) && r == LoadFile(t, SaveText(s))
    ensures r == s
  {
    ShapedUnique(s);
    ShapedReadable(s, t);
    SaveThenLoad(s, t);
    LoadFileShaped(t, SaveText(s));
    ShapedUnique(r);
    forall i | 0 <= i < |s| ensures r[i] == s[i] {
      assert Keys(r)[i] == Keys(s)[i];
      GetUnique(r, i);
    }
  }

  lemma DefaultKeysClean(ds: Settings)
    requires ds == Defaults
    ensures forall i :: 0 <= i < |ds| ==> CleanKey(ds[i].0)
  {
    FirstKeysClean();
    LastKeysClean();
  }

  lemma FirstKeysClean()
    ensures CleanKey(AutoMigrate) && CleanKey(AutoBackup) && CleanKey(Interactive) && CleanKey(BackupRetentionDays)
  {
  }

  lemma LastKeysClean()
    ensures CleanKey(PreserveHierarchies) && CleanKey(ConsolidateWorkstreams)
    ensures CleanKey(MinTasksPerWorkstream) && CleanKey(MaxWorkstreamsPerPhase)
  {
  }
}
