/** The workstream grouping of Step 4 of the granular migration
    (`_identify_workstreams`, `_categorize_single_task`): each task is scored
    against eight workstream patterns, the best one that reaches its
    minimum wins, small groups fold into `general`, and at most seven
    groups survive. */
module GranularWorkstreams {
  import opened Wrappers
  import opened Text
  import opened Tasks
  import opened Ranking
  import opened Sorting
  import opened Seqs
  import opened OrderedMaps
  import opened RelationshipClusters

  // ---------------------------------------------------------------------
  // The regular expressions of the pattern table

  /** The two shapes of regular expression the table uses: `a\s+b`, and a
      pattern without metacharacters (`ci/cd`). */
  datatype Pattern = Spaced(first: string, second: string) | Literal(text: string)

  /** Length of the run of whitespace (`\s`) the string starts with. */
  function SpaceRun(s: string): (n: nat)
    ensures n <= |s|
    ensures AllSpace(s[..n])
    ensures n < |s| ==> !IsSpace(s[n])
    decreases |s|
  {
    if |s| == 0 || !IsSpace(s[0]) then 0
    else
      var n := SpaceRun(s[1..]);
      assert s[..n + 1] == [s[0]] + s[1..][..n];
      n + 1
  }

  /** `a\s+b` matches at the start of `s`. Since `b` starts with a letter
      the whitespace run is taken whole. */
  predicate SpacedAt(s: string, a: string, b: string) {
    a <= s && var rest := s[|a|..]; var n := SpaceRun(rest); n > 0 && b <= rest[n..]
  }

  /** `re.search(r'a\s+b', text)` finds a match. */
  function SearchSpaced(text: string, a: string, b: string): (r: bool)
    ensures r <==> exists i :: 0 <= i <= |text| && SpacedAt(text[i..], a, b)
    decreases |text|
  {
    if SpacedAt(text, a, b) then
      assert text[0..] == text;
      true
    else if |text| == 0 then false
    else
      SearchShift(text, a, b);
      SearchSpaced(text[1..], a, b)
  }

  lemma SearchShift(text: string, a: string, b: string)
    requires |text| > 0
    ensures (exists i :: 0 <= i <= |text| && SpacedAt(text[i..], a, b)) <==>
              SpacedAt(text, a, b) || exists i :: 0 <= i <= |text[1..]| && SpacedAt(text[1..][i..], a, b)
  {
    assert text[0..] == text;
    assert forall i :: 1 <= i <= |text| ==> text[i..] == text[1..][i - 1..];
    if exists i :: 0 <= i <= |text[1..]| && SpacedAt(text[1..][i..], a, b) {
      var i :| 0 <= i <= |text[1..]| && SpacedAt(text[1..][i..], a, b);
      assert text[i + 1..] == text[1..][i..];
    }
  }

  /** `a`, then exactly `n` whitespace characters, then `b`. */
  ghost predicate SpacedWith(s: string, a: string, b: string, n: nat) {
    1 <= n && |a| + n <= |s| && s[..|a|] == a && AllSpace(s[|a|..|a| + n]) && b <= s[|a| + n..]
  }

  /** The whitespace run is the only way `\s+` can match when `b` does not
      start with whitespace: the regular expression's backtracking never
      finds a shorter run. */
  lemma SpacedAtMeaning(s: string, a: string, b: string)
    requires |b| > 0 && !IsSpace(b[0])
    ensures SpacedAt(s, a, b) <==> exists n: nat :: SpacedWith(s, a, b, n)
  {
    if SpacedAt(s, a, b) {
      SpacedAtRun(s, a, b);
    }
    if exists n: nat :: SpacedWith(s, a, b, n) {
      var n: nat :| SpacedWith(s, a, b, n);
      SpacedWithRun(s, a, b, n);
    }
  }

  lemma SpacedAtRun(s: string, a: string, b: string)
    requires SpacedAt(s, a, b)
    ensures SpacedWith(s, a, b, SpaceRun(s[|a|..]))
  {
    var rest := s[|a|..];
    var n := SpaceRun(rest);
    assert s[|a|..|a| + n] == rest[..n];
    assert s[|a| + n..] == rest[n..];
  }

  lemma SpacedWithRun(s: string, a: string, b: string, n: nat)
    requires |b| > 0 && !IsSpace(b[0])
    requires SpacedWith(s, a, b, n)
    ensures SpacedAt(s, a, b)
  {
    var rest := s[|a|..];
    assert rest[..n] == s[|a|..|a| + n];
    assert rest[n] == b[0];
    assert rest[n..] == s[|a| + n..];
  }

  /** `re.search(pattern, text, re.IGNORECASE)` on text that is already in
      lower case, against a lower-case pattern. */
  predicate Matches(text: string, p: Pattern) {
    match p
    case Spaced(a, b) => SearchSpaced(text, a, b)
    case Literal(l) => Contains(text, l)
  }

  /** How many of the patterns match. */
  function PatternHits(text: string, ps: seq<Pattern>): (n: nat)
    ensures n <= |ps|
    ensures n == 0 <==> forall i :: 0 <= i < |ps| ==> !Matches(text, ps[i])
    decreases |ps|
  {
    if |ps| == 0 then 0
    else
      assert forall i :: 1 <= i < |ps| ==> ps[1..][i - 1] == ps[i];
      (if Matches(text, ps[0]) then 1 else 0) + PatternHits(text, ps[1..])
  }

  // ---------------------------------------------------------------------
  // Scoring

  datatype WorkstreamPattern = WorkstreamPattern(
    key: string, keywords: seq<string>, patterns: seq<Pattern>, minScore: nat)

  /** `workstream_patterns`, in its order. */
  const GranularPatterns: seq<WorkstreamPattern> := [
    WorkstreamPattern("quote_calculator",
      ["quote", "calculator", "pricing", "estimate", "quotation"],
      [Spaced("quote", "calculator"), Spaced("pricing", "logic"), Spaced("quote", "system")], 1),
    WorkstreamPattern("authentication",
      ["auth", "login", "user", "profile", "session", "authentication", "signup", "signin"],
      [Spaced("user", "management"), Spaced("authentication", "system"), Spaced("login", "system")], 2),
    WorkstreamPattern("dashboard",
      ["dashboard", "admin", "management", "overview", "analytics"],
      [Spaced("admin", "dashboard"), Spaced("management", "interface")], 1),
    WorkstreamPattern("api_development",
      ["api", "endpoint", "service", "backend", "rest", "graphql"],
      [Spaced("api", "endpoint"), Spaced("backend", "service"), Spaced("rest", "api")], 1),
    WorkstreamPattern("database",
      ["database", "schema", "table", "migration", "sql", "db"],
      [Spaced("database", "schema"), Spaced("data", "model"), Spaced("table", "structure")], 1),
    WorkstreamPattern("ui_development",
      ["ui", "component", "page", "interface", "frontend", "view", "screen"],
      [Spaced("ui", "component"), Spaced("user", "interface"), Spaced("frontend", "page")], 2),
    WorkstreamPattern("testing",
      ["test", "testing", "quality", "qa", "unit", "integration", "e2e"],
      [Spaced("unit", "test"), Spaced("integration", "test"), Spaced("test", "suite")], 1),
    WorkstreamPattern("deployment",
      ["deploy", "deployment", "production", "release", "build", "ci", "cd"],
      [Spaced("deployment", "pipeline"), Literal("ci/cd"), Spaced("production", "release")], 1)
  ]

  /** One point per keyword present, two per pattern that matches. */
  function Score(text: string, w: WorkstreamPattern): (n: nat)
    ensures n == 0 <==> !AnyIn(text, w.keywords) && forall i :: 0 <= i < |w.patterns| ==> !Matches(text, w.patterns[i])
    ensures n <= |w.keywords| + 2 * |w.patterns|
  {
    Hits(text, w.keywords) + 2 * PatternHits(text, w.patterns)
  }

  /** The score a pattern competes with: nothing below its minimum. */
  function Effective(text: string, w: WorkstreamPattern): (n: nat)
    ensures n > 0 ==> n == Score(text, w) && n >= w.minScore
    ensures n == 0 ==> Score(text, w) == 0 || Score(text, w) < w.minScore
  {
    var s := Score(text, w);
    if s >= w.minScore then s else 0
  }

  /** The loop over the table: a pattern takes over when its score reaches
      its minimum and beats the best so far, which starts at zero. The
      result is the first pattern with the largest competing score, and
      none when every competing score is zero. */
  function Scan(text: string, ps: seq<WorkstreamPattern>): (r: (Option<nat>, nat))
    ensures forall j :: 0 <= j < |ps| ==> Effective(text, ps[j]) <= r.1
    ensures r.0.None? <==> r.1 == 0
    ensures r.0.Some? ==> r.0.value < |ps| && Effective(text, ps[r.0.value]) == r.1
    ensures r.0.Some? ==> forall j :: 0 <= j < r.0.value ==> Effective(text, ps[j]) < r.1
    decreases |ps|
  {
    if |ps| == 0 then (None, 0)
    else
      var prefix := ps[..|ps| - 1];
      var w := ps[|ps| - 1];
      assert forall j :: 0 <= j < |prefix| ==> prefix[j] == ps[j];
      var (b, s) := Scan(text, prefix);
      var sc := Score(text, w);
      if sc >= w.minScore && sc > s then (Some(|ps| - 1), sc) else (b, s)
  }

  function EffectiveScores(text: string, ps: seq<WorkstreamPattern>): (s: seq<int>)
    ensures |s| == |ps|
    ensures forall j :: 0 <= j < |ps| ==> s[j] == Effective(text, ps[j])
  {
    seq(|ps|, j requires 0 <= j < |ps| => Effective(text, ps[j]))
  }

  /** The scan agrees with `max` over the competing scores, first index on
      ties. */
  lemma ScanIsFirstMax(text: string, ps: seq<WorkstreamPattern>)
    requires |ps| > 0
    ensures Scan(text, ps).0.Some? ==> Scan(text, ps).0.value == FirstMax(EffectiveScores(text, ps))
    ensures Scan(text, ps).0.None? <==> EffectiveScores(text, ps)[FirstMax(EffectiveScores(text, ps))] == 0
  {
    var r := Scan(text, ps);
    var s := EffectiveScores(text, ps);
    var i := FirstMax(s);
    if r.0.Some? {
      FirstMaxUnique(s, r.0.value);
    } else {
      assert s[i] <= r.1;
    }
  }

  /** `_categorize_single_task`, and the per-task body of
      `_identify_workstreams`: the winning pattern's key, else `general`. */
  function WorkstreamKey(t: Task): (k: string)
    ensures k == General <==>
              forall j :: 0 <= j < |GranularPatterns| ==> Effective(TaskText(t), GranularPatterns[j]) == 0
    ensures k != General ==>
              exists j :: 0 <= j < |GranularPatterns| && GranularPatterns[j].key == k
                          && Effective(TaskText(t), GranularPatterns[j]) > 0
  {
    PatternKeys();
    match Scan(TaskText(t), GranularPatterns).0
    case Some(i) => GranularPatterns[i].key
    case None => General
  }

  lemma PatternKeys()
    ensures forall j :: 0 <= j < |GranularPatterns| ==> GranularPatterns[j].key != General
  {
  }

  // ---------------------------------------------------------------------
  // Grouping

  /** Groups of items under string keys, in insertion order. */
  type Groups<T> = OMap<string, seq<T>>

  function Bag<T>(ts: seq<T>): multiset<T> {
    multiset(ts)
  }

  /** Every entry is non-empty and holds only items of the input carrying
      its key. */
  ghost predicate Sound<T>(g: Groups<T>, items: seq<T>, key: T -> string) {
    forall j :: 0 <= j < |g| ==> |g[j].1| > 0 && forall t :: t in g[j].1 ==> t in items && key(t) == g[j].0
  }

  /** `workstreams[key].append(task)` for each task in order, creating the
      list on a key's first task: the groups hold every task exactly once,
      each under its own key. */
  function GroupBy<T>(items: seq<T>, key: T -> string): (g: Groups<T>)
    ensures UniqueKeys(g)
    ensures BagOf(g, Bag) == multiset(items)
    ensures Sound(g, items, key)
    decreases |items|
  {
    if |items| == 0 then []
    else
      var prefix := items[..|items| - 1];
      var t := items[|items| - 1];
      assert items == prefix + [t];
      var g0 := GroupBy(prefix, key);
      GroupStep(g0, prefix, t, key);
      Put(g0, key(t), GetOr(g0, key(t), []) + [t])
  }

  lemma GroupStep<T>(g0: Groups<T>, prefix: seq<T>, t: T, key: T -> string)
    requires UniqueKeys(g0) && BagOf(g0, Bag) == multiset(prefix) && Sound(g0, prefix, key)
    ensures var g := Put(g0, key(t), GetOr(g0, key(t), []) + [t]);
            UniqueKeys(g) && BagOf(g, Bag) == multiset(prefix + [t]) && Sound(g, prefix + [t], key)
  {
    var k := key(t);
    PutUnique(g0, k, GetOr(g0, k, []) + [t]);
    PutAppendBag(g0, k, [t]);
    GroupSound(g0, prefix, t, key);
  }

  lemma GroupSound<T>(g0: Groups<T>, prefix: seq<T>, t: T, key: T -> string)
    requires Sound(g0, prefix, key)
    ensures Sound(Put(g0, key(t), GetOr(g0, key(t), []) + [t]), prefix + [t], key)
  {
    var k := key(t);
    var g := Put(g0, k, GetOr(g0, k, []) + [t]);
    forall j | 0 <= j < |g|
      ensures |g[j].1| > 0 && forall u :: u in g[j].1 ==> u in prefix + [t] && key(u) == g[j].0
    {
      if HasKey(g0, k) && j == OrderedMaps.IndexOf(g0, k) {
        assert g[j].1 == g0[j].1 + [t];
      } else if j < |g0| {
        assert g[j] == g0[j];
      } else {
        assert !HasKey(g0, k) && g == g0 + [(k, [] + [t])];
      }
    }
  }

  /** Extending one group's list adds exactly the new items. */
  lemma PutAppendBag<T>(m: Groups<T>, k: string, extra: seq<T>)
    ensures BagOf(Put(m, k, GetOr(m, k, []) + extra), Bag) == BagOf(m, Bag) + multiset(extra)
  {
    var v := GetOr(m, k, []) + extra;
    assert multiset(v) == multiset(GetOr(m, k, [])) + multiset(extra);
    BagOfPut(m, k, v, Bag);
    assert Bag(v) == multiset(v);
    if HasKey(m, k) {
      var x := BagOf(Put(m, k, v), Bag);
      var a := multiset(GetOr(m, k, []));
      assert Bag(Get(m, k)) == a;
      assert x + a == BagOf(m, Bag) + a + multiset(extra);
      MultisetCancel(x, a, BagOf(m, Bag), multiset(extra));
    } else {
      assert GetOr(m, k, []) == [];
    }
  }

  // ---------------------------------------------------------------------
  // Consolidation

  const MinGroupSize := 3
  const MaxGroups := 7
  const KeptGroups := 6

  predicate Large<T>(ts: seq<T>) {
    |ts| >= MinGroupSize
  }

  /** The items of all entries, entry by entry. */
  function Flatten<T>(m: Groups<T>): (ts: seq<T>)
    ensures multiset(ts) == BagOf(m, Bag)
    decreases |m|
  {
    if |m| == 0 then [] else m[0].1 + Flatten(m[1..])
  }

  function Size<T>(e: (string, seq<T>)): int {
    |e.1|
  }

  /** Filtering keeps keys unique. */
  lemma {:induction false} WhereUnique<T>(m: Groups<T>, p: seq<T> -> bool, keep: bool)
    requires UniqueKeys(m)
    ensures UniqueKeys(Where(m, p, keep))
    decreases |m|
  {
    if |m| > 0 {
      UniqueTail(m);
      WhereUnique(m[1..], p, keep);
      var w := Where(m[1..], p, keep);
      EntriesLackKey(m[1..], w, m[0].0);
      if p(m[0].1) == keep {
        ConsUnique(m[0], w);
      }
    }
  }

  lemma EntriesLackKey<T>(rest: Groups<T>, w: Groups<T>, k: string)
    requires forall j :: 0 <= j < |w| ==> w[j] in rest
    requires !HasKey(rest, k)
    ensures forall j :: 0 <= j < |w| ==> w[j].0 != k
  {
    forall j | 0 <= j < |w| ensures w[j].0 != k {
      var h :| 0 <= h < |rest| && rest[h] == w[j];
    }
  }

  lemma ConsUnique<T>(e: (string, seq<T>), w: Groups<T>)
    requires UniqueKeys(w) && forall j :: 0 <= j < |w| ==> w[j].0 != e.0
    ensures UniqueKeys([e] + w)
  {
    var r := [e] + w;
    forall i, j | 0 <= i < j < |r| ensures r[i].0 != r[j].0 {
      assert r[j] == w[j - 1];
      if i > 0 {
        assert r[i] == w[i - 1];
      }
    }
  }

  /** In a map with unique keys no entry is repeated. */
  lemma {:induction false} UniqueOnce<T>(m: Groups<T>, e: (string, seq<T>))
    requires UniqueKeys(m)
    ensures multiset(m)[e] <= 1
    decreases |m|
  {
    if |m| > 0 {
      UniqueTail(m);
      UniqueOnce(m[1..], e);
      assert m == [m[0]] + m[1..];
      if m[0] == e {
        assert forall h :: 0 <= h < |m[1..]| ==> m[1..][h].0 != e.0;
        assert e !in m[1..];
      }
    }
  }

  /** Reordering keeps keys unique. */
  lemma PermutationUnique<T>(a: Groups<T>, b: Groups<T>)
    requires UniqueKeys(a) && multiset(a) == multiset(b)
    ensures UniqueKeys(b)
  {
    forall i, j | 0 <= i < j < |b| ensures b[i].0 != b[j].0 {
      assert b[i] in multiset(a) && b[j] in multiset(a);
      if b[i] == b[j] {
        assert b == b[..j] + [b[j]] + b[j + 1..];
        assert b[i] in b[..j];
        assert multiset(b)[b[j]] >= 2;
        UniqueOnce(a, b[j]);
      }
    }
  }

  /** The first pass: every named group of fewer than three items is
      appended, in order, to the `general` items, and `general` goes last
      when it has any. */
  function FirstPass<T>(g: Groups<T>): Groups<T> {
    var others := WithoutKey(g, General);
    var general := GetOr(g, General, []) + Flatten(Where(others, Large, false));
    var big := Where(others, Large, true);
    if |general| > 0 then big + [(General, general)] else big
  }

  /** The cap: sorted by size, largest first and stable on ties, the first
      six stay (`final_workstreams[k] = v` over distinct keys keeps them in
      that order) and the rest join `general`. */
  function Cap<T>(c: Groups<T>): Groups<T>
    requires |c| > MaxGroups
  {
    KeepSix(SortDesc(c, Size))
  }

  /** The first six entries, with the items of the rest appended to
      `general`. */
  function KeepSix<T>(sorted: Groups<T>): Groups<T>
    requires |sorted| > KeptGroups
  {
    var keep := sorted[..KeptGroups];
    var overflow := Flatten(sorted[KeptGroups..]);
    if |overflow| > 0 then Put(keep, General, GetOr(keep, General, []) + overflow) else keep
  }

  /** Every entry is non-empty; every entry other than `general` is a
      group of the input with at least three items. */
  ghost predicate Consolidated<T>(r: Groups<T>, g: Groups<T>) {
    forall j :: 0 <= j < |r| ==> |r[j].1| > 0 && (r[j].0 != General ==> r[j] in g && Large(r[j].1))
  }

  ghost predicate NonEmptyGroups<T>(g: Groups<T>) {
    forall j :: 0 <= j < |g| ==> |g[j].1| > 0
  }

  /** `_identify_workstreams`' consolidation: at most seven groups with
      unique keys, holding exactly the items of the input groups; a named
      group survives only whole and with at least three items. */
  function Consolidate<T>(g: Groups<T>): (r: Groups<T>)
    requires UniqueKeys(g) && NonEmptyGroups(g)
    ensures |r| <= MaxGroups
    ensures UniqueKeys(r)
    ensures BagOf(r, Bag) == BagOf(g, Bag)
    ensures Consolidated(r, g)
  {
    var c := FirstPass(g);
    FirstPassUnique(g);
    FirstPassBag(g);
    FirstPassShape(g);
    if |c| > MaxGroups then
      CapUnique(c);
      CapBag(c);
      CapShape(c, g);
      Cap(c)
    else c
  }

  lemma FirstPassUnique<T>(g: Groups<T>)
    requires UniqueKeys(g)
    ensures UniqueKeys(FirstPass(g))
  {
    var others := WithoutKey(g, General);
    var general := GetOr(g, General, []) + Flatten(Where(others, Large, false));
    var big := Where(others, Large, true);
    WithoutKeyUnique(g, General);
    WhereUnique(others, Large, true);
    if |general| > 0 {
      var c := big + [(General, general)];
      forall i, j | 0 <= i < j < |c| ensures c[i].0 != c[j].0 {
        if j == |big| {
          assert c[i] in others;
        }
      }
    }
  }

  lemma FirstPassBag<T>(g: Groups<T>)
    requires UniqueKeys(g)
    ensures BagOf(FirstPass(g), Bag) == BagOf(g, Bag)
  {
    var others := WithoutKey(g, General);
    var small := Where(others, Large, false);
    var general := GetOr(g, General, []) + Flatten(small);
    var big := Where(others, Large, true);
    WithoutKeyBag(g, General, Bag);
    WhereBagPartition(others, Large, Bag);
    if |general| > 0 {
      BagOfConcat(big, [(General, general)], Bag);
      assert BagOf([(General, general)], Bag) == multiset(general) by {
        assert [(General, general)][1..] == [];
      }
      if !HasKey(g, General) {
        assert GetOr(g, General, []) == [];
      }
    } else if HasKey(g, General) {
      assert Get(g, General) == [];
    }
  }

  lemma FirstPassShape<T>(g: Groups<T>)
    ensures Consolidated(FirstPass(g), g)
  {
    var others := WithoutKey(g, General);
    var general := GetOr(g, General, []) + Flatten(Where(others, Large, false));
    var big := Where(others, Large, true);
    var c := FirstPass(g);
    forall j | 0 <= j < |c| ensures |c[j].1| > 0 && (c[j].0 != General ==> c[j] in g && Large(c[j].1)) {
      if j < |big| {
        assert c[j] == big[j] && big[j] in others;
      }
    }
  }

  lemma SortedEntries<T>(c: Groups<T>)
    ensures forall e :: e in SortDesc(c, Size) ==> e in c
  {
    var sorted := SortDesc(c, Size);
    forall e | e in sorted ensures e in c {
      assert e in multiset(sorted);
    }
  }

  lemma CapUnique<T>(c: Groups<T>)
    requires |c| > MaxGroups && UniqueKeys(c)
    ensures |Cap(c)| <= MaxGroups
    ensures UniqueKeys(Cap(c))
  {
    var sorted := SortDesc(c, Size);
    var keep := sorted[..KeptGroups];
    var overflow := Flatten(sorted[KeptGroups..]);
    PermutationUnique(c, sorted);
    assert UniqueKeys(keep);
    if |overflow| > 0 {
      PutUnique(keep, General, GetOr(keep, General, []) + overflow);
    }
  }

  lemma CapBag<T>(c: Groups<T>)
    requires |c| > MaxGroups
    ensures BagOf(Cap(c), Bag) == BagOf(c, Bag)
  {
    var sorted := SortDesc(c, Size);
    BagOfPermutation(c, sorted, Bag);
    KeepSixBag(sorted);
  }

  lemma KeepSixBag<T>(sorted: Groups<T>)
    requires |sorted| > KeptGroups
    ensures BagOf(KeepSix(sorted), Bag) == BagOf(sorted, Bag)
  {
    var keep := sorted[..KeptGroups];
    var rest := sorted[KeptGroups..];
    var overflow := Flatten(rest);
    assert sorted == keep + rest;
    BagOfConcat(keep, rest, Bag);
    if |overflow| > 0 {
      PutAppendBag(keep, General, overflow);
    } else {
      assert multiset(overflow) == multiset{};
    }
  }

  lemma CapShape<T>(c: Groups<T>, g: Groups<T>)
    requires |c| > MaxGroups && Consolidated(c, g)
    ensures Consolidated(Cap(c), g)
  {
    var sorted := SortDesc(c, Size);
    var keep := sorted[..KeptGroups];
    var overflow := Flatten(sorted[KeptGroups..]);
    SortedEntries(c);
    assert forall j :: 0 <= j < |keep| ==> keep[j] in sorted;
    if |overflow| > 0 {
      var r := Put(keep, General, GetOr(keep, General, []) + overflow);
      forall j | 0 <= j < |r| ensures |r[j].1| > 0 && (r[j].0 != General ==> r[j] in g && Large(r[j].1)) {
        if r[j].0 != General {
          assert j < |keep| && r[j] == keep[j];
        }
      }
    }
  }

  /** `_identify_workstreams`: every task lands in exactly one of at most
      seven groups, and a task sits in a named group only under its own
      key, in a group of at least three. */
  function Identify(tasks: seq<Task>): (r: Groups<Task>)
    ensures |r| <= MaxGroups
    ensures UniqueKeys(r)
    ensures BagOf(r, Bag) == multiset(tasks)
    ensures forall j :: 0 <= j < |r| ==> |r[j].1| > 0
    ensures forall j, t :: 0 <= j < |r| && r[j].0 != General && t in r[j].1 ==>
              WorkstreamKey(t) == r[j].0 && |r[j].1| >= MinGroupSize
  {
    var g := GroupBy(tasks, WorkstreamKey);
    IdentifyFacts(g, tasks);
    Consolidate(g)
  }

  lemma IdentifyFacts(g: Groups<Task>, tasks: seq<Task>)
    requires UniqueKeys(g) && Sound(g, tasks, WorkstreamKey)
    ensures NonEmptyGroups(g)
    ensures forall j, t :: 0 <= j < |Consolidate(g)| && Consolidate(g)[j].0 != General && t in Consolidate(g)[j].1 ==>
              WorkstreamKey(t) == Consolidate(g)[j].0
  {
    var r := Consolidate(g);
    forall j, t | 0 <= j < |r| && r[j].0 != General && t in r[j].1
      ensures WorkstreamKey(t) == r[j].0
    {
      var h :| 0 <= h < |g| && g[h] == r[j];
    }
  }
}
