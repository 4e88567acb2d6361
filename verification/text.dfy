/** Python string semantics that the model relies on: ASCII `lower()`,
    substring `in`, `str.count`, `strip()`, `split(sep)` / `sep.join`,
    `startswith`, decimal `str(int)` / `int(str)`, and the code-point
    ordering that `sorted` uses on strings. */
module Text {
  import opened Wrappers

  // ---------------------------------------------------------------------
  // Case mapping

  /** `c.lower()` for ASCII letters; every other character is unchanged. */
  function LowerChar(c: char): char {
    if 'A' <= c <= 'Z' then (c as int + 32) as char else c
  }

  /** `s.lower()` restricted to ASCII case mapping. */
  function Lower(s: string): (r: string)
    ensures |r| == |s|
    ensures forall i :: 0 <= i < |s| ==> r[i] == LowerChar(s[i])
  {
    seq(|s|, i requires 0 <= i < |s| => LowerChar(s[i]))
  }

  lemma LowerConcat(a: string, b: string)
    ensures Lower(a + b) == Lower(a) + Lower(b)
  {
  }

  /** `c.upper()` for ASCII letters. */
  function UpperChar(c: char): char {
    if 'a' <= c <= 'z' then (c as int - 32) as char else c
  }

  /** `s.upper()` restricted to ASCII case mapping. */
  function Upper(s: string): (r: string)
    ensures |r| == |s|
    ensures forall i :: 0 <= i < |s| ==> r[i] == UpperChar(s[i])
  {
    seq(|s|, i requires 0 <= i < |s| => UpperChar(s[i]))
  }

  /** A cased character, for the ASCII range. */
  predicate IsLetter(c: char) {
    'a' <= c <= 'z' || 'A' <= c <= 'Z'
  }

  /** `s.title()`: a letter is upper-cased when the character before it is
      not a letter and lower-cased otherwise. `afterLetter` says whether the
      character before `s` was a letter. */
  function TitleFrom(s: string, afterLetter: bool): (r: string)
    ensures |r| == |s|
    decreases |s|
  {
    if |s| == 0 then ""
    else [if afterLetter then LowerChar(s[0]) else UpperChar(s[0])] + TitleFrom(s[1..], IsLetter(s[0]))
  }

  function Title(s: string): string {
    TitleFrom(s, false)
  }

  /** Title-casing changes case only: lower-casing undoes it. */
  lemma {:induction false} TitleKeepsLetters(s: string, afterLetter: bool)
    ensures Lower(TitleFrom(s, afterLetter)) == Lower(s)
    decreases |s|
  {
    if |s| > 0 {
      TitleKeepsLetters(s[1..], IsLetter(s[0]));
      var r := TitleFrom(s, afterLetter);
      assert r == [r[0]] + TitleFrom(s[1..], IsLetter(s[0]));
      assert LowerChar(r[0]) == LowerChar(s[0]);
      assert Lower(r) == [LowerChar(r[0])] + Lower(TitleFrom(s[1..], IsLetter(s[0])));
      assert Lower(s) == [LowerChar(s[0])] + Lower(s[1..]);
    }
  }

  /** `s.replace(a, b)` for single characters. */
  function ReplaceChar(s: string, a: char, b: char): (r: string)
    ensures |r| == |s|
    ensures forall i :: 0 <= i < |s| ==> r[i] == (if s[i] == a then b else s[i])
  {
    seq(|s|, i requires 0 <= i < |s| => if s[i] == a then b else s[i])
  }

  // ---------------------------------------------------------------------
  // Substring search

  /** `needle` occurs in `hay` at offset `i`. */
  ghost predicate OccursAt(hay: string, needle: string, i: int) {
    0 <= i && i + |needle| <= |hay| && hay[i..i + |needle|] == needle
  }

  /** Python's `needle in hay`; the empty needle occurs everywhere. */
  predicate Contains(hay: string, needle: string)
    decreases |hay|
  {
    if needle <= hay then true
    else if |hay| == 0 then false
    else Contains(hay[1..], needle)
  }

  /** The scanning definition of `Contains` agrees with the declarative one. */
  lemma {:induction false} ContainsIffOccurs(hay: string, needle: string)
    ensures Contains(hay, needle) <==> exists i :: OccursAt(hay, needle, i)
    decreases |hay|
  {
    if needle <= hay {
      assert OccursAt(hay, needle, 0);
    } else if |hay| == 0 {
      assert forall i :: !OccursAt(hay, needle, i);
    } else {
      ContainsIffOccurs(hay[1..], needle);
      if Contains(hay[1..], needle) {
        var i :| OccursAt(hay[1..], needle, i);
        assert hay[1..][i..i + |needle|] == hay[i + 1..i + 1 + |needle|];
        assert OccursAt(hay, needle, i + 1);
      }
      if exists i :: OccursAt(hay, needle, i) {
        var i :| OccursAt(hay, needle, i);
        assert hay[1..][i - 1..i - 1 + |needle|] == hay[i..i + |needle|];
        assert OccursAt(hay[1..], needle, i - 1);
      }
    }
  }

  lemma OccursShift(hay: string, needle: string, i: int)
    requires |hay| > 0 && i >= 0
    ensures OccursAt(hay[1..], needle, i) <==> OccursAt(hay, needle, i + 1)
  {
    if 0 <= i && i + |needle| <= |hay| - 1 {
      assert hay[1..][i..i + |needle|] == hay[i + 1..i + 1 + |needle|];
    }
  }

  /** Python's `hay.find(needle)`: the first offset where a non-empty
      `needle` occurs. */
  function Find(hay: string, needle: string): (r: Option<nat>)
    requires |needle| > 0
    ensures r.Some? ==> OccursAt(hay, needle, r.value)
    ensures r.Some? ==> forall j :: 0 <= j < r.value ==> !OccursAt(hay, needle, j)
    ensures r.None? ==> forall j :: !OccursAt(hay, needle, j)
    decreases |hay|
  {
    if needle <= hay then
      assert hay[..|needle|] == needle;
      Some(0)
    else if |hay| == 0 then None
    else
      var rest := Find(hay[1..], needle);
      assert !OccursAt(hay, needle, 0);
      assert forall j :: j >= 0 ==> (OccursAt(hay[1..], needle, j) <==> OccursAt(hay, needle, j + 1)) by {
        forall j | j >= 0 ensures OccursAt(hay[1..], needle, j) <==> OccursAt(hay, needle, j + 1) {
          OccursShift(hay, needle, j);
        }
      }
      match rest
      case None =>
        assert forall j :: !OccursAt(hay, needle, j) by {
          forall j ensures !OccursAt(hay, needle, j) {
            if j >= 1 {
              assert !OccursAt(hay[1..], needle, j - 1);
            }
          }
        }
        None
      case Some(i) =>
        assert forall j :: 0 <= j < i + 1 ==> !OccursAt(hay, needle, j) by {
          forall j | 0 <= j < i + 1 ensures !OccursAt(hay, needle, j) {
            if j >= 1 {
              assert !OccursAt(hay[1..], needle, j - 1);
            }
          }
        }
        Some(i + 1)
  }

  /** An occurrence in a part is an occurrence in the whole. */
  lemma ContainsInConcat(a: string, b: string, needle: string)
    ensures Contains(a, needle) ==> Contains(a + b, needle)
    ensures Contains(b, needle) ==> Contains(a + b, needle)
  {
    ContainsIffOccurs(a, needle);
    ContainsIffOccurs(b, needle);
    ContainsIffOccurs(a + b, needle);
    if Contains(a, needle) {
      var i :| OccursAt(a, needle, i);
      assert (a + b)[i..i + |needle|] == a[i..i + |needle|];
      assert OccursAt(a + b, needle, i);
    }
    if Contains(b, needle) {
      var i :| OccursAt(b, needle, i);
      assert (a + b)[|a| + i..|a| + i + |needle|] == b[i..i + |needle|];
      assert OccursAt(a + b, needle, |a| + i);
    }
  }

  /** A needle longer than the text does not occur in it. */
  lemma LongerNotContained(hay: string, needle: string)
    requires |needle| > |hay|
    ensures !Contains(hay, needle)
  {
    ContainsIffOccurs(hay, needle);
  }

  /** A needle with a character the text lacks does not occur in it. */
  lemma MissingCharNotContained(hay: string, needle: string, c: char)
    requires c in needle && c !in hay
    ensures !Contains(hay, needle)
  {
    ContainsIffOccurs(hay, needle);
  }

  /** Some keyword of the list occurs in `text` (Python's
      `any(k in text for k in keywords)`). */
  predicate AnyIn(text: string, keywords: seq<string>) {
    exists k :: k in keywords && Contains(text, k)
  }

  /** Python's `hay.count(needle)`: non-overlapping occurrences scanned left
      to right; the empty needle is counted `len(hay) + 1` times. */
  function CountOf(hay: string, needle: string): nat
    decreases |hay|
  {
    if |needle| == 0 then |hay| + 1
    else if |hay| < |needle| then 0
    else if needle <= hay then 1 + CountOf(hay[|needle|..], needle)
    else CountOf(hay[1..], needle)
  }

  /** A keyword is counted at least once exactly when it occurs. */
  lemma {:induction false} CountPositiveIffContains(hay: string, needle: string)
    ensures CountOf(hay, needle) > 0 <==> Contains(hay, needle)
    decreases |hay|
  {
    if |needle| == 0 {
    } else if |hay| < |needle| {
      ContainsIffOccurs(hay, needle);
    } else if needle <= hay {
    } else {
      CountPositiveIffContains(hay[1..], needle);
    }
  }

  // ---------------------------------------------------------------------
  // Whitespace and strip()

  /** The characters Python's `str.isspace()` accepts, which `strip()`
      removes. */
  predicate IsSpace(c: char) {
    c == ' ' || ('\t' <= c <= '\r') || ('\U{1C}' <= c <= '\U{1F}')
    || c == '\U{85}' || c == '\U{A0}' || c == '\U{1680}'
    || ('\U{2000}' <= c <= '\U{200A}') || c == '\U{2028}' || c == '\U{2029}'
    || c == '\U{202F}' || c == '\U{205F}' || c == '\U{3000}'
  }

  predicate AllSpace(s: string) {
    forall i :: 0 <= i < |s| ==> IsSpace(s[i])
  }

  /** `s.lstrip()`: the longest suffix that does not start with whitespace. */
  function TrimLeft(s: string): (r: string)
    ensures |r| <= |s| && r == s[|s| - |r|..]
    ensures AllSpace(s[..|s| - |r|])
    ensures |r| == 0 || !IsSpace(r[0])
    decreases |s|
  {
    if |s| > 0 && IsSpace(s[0]) then
      var r := TrimLeft(s[1..]);
      assert s[1..][|s| - 1 - |r|..] == s[|s| - |r|..];
      assert forall i :: 0 <= i < |s| - |r| ==> s[i] == s[0] || s[i] == s[1..][..|s| - 1 - |r|][i - 1];
      r
    else s
  }

  /** `s.rstrip()`: the longest prefix that does not end with whitespace. */
  function TrimRight(s: string): (r: string)
    ensures |r| <= |s| && r == s[..|r|]
    ensures AllSpace(s[|r|..])
    ensures |r| == 0 || !IsSpace(r[|r| - 1])
    decreases |s|
  {
    if |s| > 0 && IsSpace(s[|s| - 1]) then
      var r := TrimRight(s[..|s| - 1]);
      assert s[..|s| - 1][..|r|] == s[..|r|];
      assert forall i :: |r| <= i < |s| ==> s[i] == s[|s| - 1] || s[i] == s[..|s| - 1][|r|..][i - |r|];
      r
    else s
  }

  /** `s.strip()`: the whole of `s` minus its whitespace border. */
  function Strip(s: string): (r: string)
    ensures exists i, j ::
              (0 <= i <= j <= |s| && r == s[i..j] && AllSpace(s[..i]) && AllSpace(s[j..]))
    ensures |r| == 0 || (!IsSpace(r[0]) && !IsSpace(r[|r| - 1]))
  {
    StripParts(s);
    TrimRight(TrimLeft(s))
  }

  /** The two trims together cut a whitespace border off each side. */
  lemma StripParts(s: string)
    ensures var r := TrimRight(TrimLeft(s));
            && (exists i, j :: (0 <= i <= j <= |s| && r == s[i..j] && AllSpace(s[..i]) && AllSpace(s[j..])))
            && (|r| == 0 || (!IsSpace(r[0]) && !IsSpace(r[|r| - 1])))
  {
    var t := TrimLeft(s);
    var r := TrimRight(t);
    var i := |s| - |t|;
    assert s[i + |r|..] == t[|r|..];
    assert r == s[i..i + |r|];
    if |r| > 0 {
      assert r[0] == t[0];
    }
  }

  /** A string without a whitespace border is its own strip. */
  lemma StripNoBorder(s: string)
    requires |s| == 0 || (!IsSpace(s[0]) && !IsSpace(s[|s| - 1]))
    ensures Strip(s) == s
  {
  }

  /** Python's `str.strip()` is idempotent. */
  lemma StripIdempotent(s: string)
    ensures Strip(Strip(s)) == Strip(s)
  {
    StripNoBorder(Strip(s));
  }

  /** Whitespace padding on either side disappears under `strip()`. */
  lemma StripPadded(pre: string, s: string, post: string)
    requires AllSpace(pre) && AllSpace(post)
    requires |s| > 0 && !IsSpace(s[0]) && !IsSpace(s[|s| - 1])
    ensures Strip(pre + s + post) == s
  {
    var w := pre + s + post;
    assert w == pre + (s + post);
    assert TrimLeft(w) == s + post by { TrimLeftPadded(pre, s + post); }
    assert TrimRight(s + post) == s by { TrimRightPadded(s, post); }
  }

  lemma {:induction false} TrimLeftPadded(pre: string, s: string)
    requires AllSpace(pre)
    requires |s| == 0 || !IsSpace(s[0])
    ensures TrimLeft(pre + s) == s
    decreases |pre|
  {
    if |pre| == 0 {
      assert pre + s == s;
    } else {
      assert (pre + s)[1..] == pre[1..] + s;
      TrimLeftPadded(pre[1..], s);
    }
  }

  lemma {:induction false} TrimRightPadded(s: string, post: string)
    requires AllSpace(post)
    requires |s| == 0 || !IsSpace(s[|s| - 1])
    ensures TrimRight(s + post) == s
    decreases |post|
  {
    if |post| == 0 {
      assert s + post == s;
    } else {
      assert (s + post)[..|s + post| - 1] == s + post[..|post| - 1];
      TrimRightPadded(s, post[..|post| - 1]);
    }
  }

  // ---------------------------------------------------------------------
  // split / join

  /** Position of the first `c` in `s`. */
  function IndexOf(s: string, c: char): (i: nat)
    requires c in s
    ensures i < |s| && s[i] == c && c !in s[..i]
  {
    if s[0] == c then 0 else 1 + IndexOf(s[1..], c)
  }

  /** Python's `s.split(sep)` for a one-character separator. */
  function Split(s: string, sep: char): (parts: seq<string>)
    ensures |parts| >= 1
    ensures forall k :: 0 <= k < |parts| ==> sep !in parts[k]
    decreases |s|
  {
    if sep !in s then [s]
    else
      var i := IndexOf(s, sep);
      [s[..i]] + Split(s[i + 1..], sep)
  }

  /** Python's `sep.join(parts)`. */
  function Join(parts: seq<string>, sep: string): string
    decreases |parts|
  {
    if |parts| == 0 then ""
    else if |parts| == 1 then parts[0]
    else parts[0] + sep + Join(parts[1..], sep)
  }

  /** Joining one more part appends the separator and the part. */
  lemma {:induction false} JoinSnoc(parts: seq<string>, x: string, sep: string)
    requires |parts| >= 1
    ensures Join(parts + [x], sep) == Join(parts, sep) + sep + x
    decreases |parts|
  {
    var all := parts + [x];
    assert all[1..] == parts[1..] + [x];
    if |parts| > 1 {
      JoinSnoc(parts[1..], x, sep);
    } else {
      assert all[1..] == [x];
    }
  }

  /** Splitting and re-joining on the same separator gives the text back. */
  lemma {:induction false} JoinSplit(s: string, sep: char)
    ensures Join(Split(s, sep), [sep]) == s
    decreases |s|
  {
    if sep !in s {
    } else {
      var i := IndexOf(s, sep);
      var rest := Split(s[i + 1..], sep);
      var parts := Split(s, sep);
      assert parts == [s[..i]] + rest;
      assert parts[1..] == rest;
      assert Join(parts, [sep]) == s[..i] + [sep] + Join(rest, [sep]);
      JoinSplit(s[i + 1..], sep);
      assert s == s[..i] + [sep] + s[i + 1..];
    }
  }

  /** Joining separator-free parts and splitting again gives the parts back. */
  lemma {:induction false} SplitJoin(parts: seq<string>, sep: char)
    requires |parts| >= 1
    requires forall k :: 0 <= k < |parts| ==> sep !in parts[k]
    ensures Split(Join(parts, [sep]), sep) == parts
    decreases |parts|
  {
    if |parts| == 1 {
    } else {
      var s := Join(parts, [sep]);
      var rest := Join(parts[1..], [sep]);
      assert s == parts[0] + [sep] + rest;
      assert s[|parts[0]|] == sep;
      assert s[..|parts[0]|] == parts[0];
      assert sep in s;
      assert IndexOf(s, sep) == |parts[0]| by {
        var i := IndexOf(s, sep);
      }
      assert s[|parts[0]| + 1..] == rest;
      SplitJoin(parts[1..], sep);
    }
  }

  /** Python's `s.split(sep, 1)` when `sep` occurs: the text before the first
      separator and everything after it. */
  function SplitOnce(s: string, sep: char): (r: (string, string))
    requires sep in s
    ensures sep !in r.0
    ensures s == r.0 + [sep] + r.1
  {
    var i := IndexOf(s, sep);
    assert s == s[..i] + [sep] + s[i + 1..];
    (s[..i], s[i + 1..])
  }

  /** The first separator is found again after a separator-free prefix. */
  lemma SplitOnceOf(a: string, sep: char, b: string)
    requires sep !in a
    ensures sep in a + [sep] + b
    ensures SplitOnce(a + [sep] + b, sep) == (a, b)
  {
    var s := a + [sep] + b;
    assert s[|a|] == sep;
    var i := IndexOf(s, sep);
    assert s[..i] == a;
    assert s[i + 1..] == b;
  }

  // ---------------------------------------------------------------------
  // Decimal integers

  predicate IsDigit(c: char) {
    '0' <= c <= '9'
  }

  predicate AllDigits(s: string) {
    forall i :: 0 <= i < |s| ==> IsDigit(s[i])
  }

  function DigitChar(d: nat): (c: char)
    requires d < 10
    ensures IsDigit(c)
  {
    ('0' as int + d) as char
  }

  /** Value of a run of decimal digits, most significant first. */
  function DigitsValue(s: string): nat
    requires AllDigits(s)
    decreases |s|
  {
    if |s| == 0 then 0
    else DigitsValue(s[..|s| - 1]) * 10 + (s[|s| - 1] as int - '0' as int)
  }

  /** Python's `str(n)` for a natural number. */
  function NatToString(n: nat): (r: string)
    ensures |r| >= 1 && AllDigits(r)
    decreases n
  {
    if n < 10 then [DigitChar(n)] else NatToString(n / 10) + [DigitChar(n % 10)]
  }

  /** Python's `str(n)` for an integer. */
  function IntToString(n: int): string {
    if n < 0 then "-" + NatToString(-n) else NatToString(n)
  }

  /** Python's `int(s)` on the decimal forms the model covers: optional
      whitespace border, an optional sign, then one or more ASCII digits.
      Anything else is the `ValueError` path, `None`. */
  function ParseInt(s: string): Option<int> {
    var t := Strip(s);
    if |t| == 0 then None
    else if t[0] == '-' || t[0] == '+' then SignedValue(t[0], t[1..])
    else if AllDigits(t) then Some(DigitsValue(t))
    else None
  }

  /** The digits after a sign: negated after `-`, `None` when they are
      missing or not all digits. */
  function SignedValue(sign: char, d: string): Option<int> {
    if |d| > 0 && AllDigits(d) then
      var v: int := DigitsValue(d);
      Some(if sign == '-' then -v else v)
    else None
  }

  lemma {:induction false} DigitsOfNat(n: nat)
    ensures DigitsValue(NatToString(n)) == n
    decreases n
  {
    if n < 10 {
    } else {
      var s := NatToString(n);
      DigitsOfNat(n / 10);
      assert s[..|s| - 1] == NatToString(n / 10);
    }
  }

  lemma DigitNotSpace(c: char)
    requires IsDigit(c)
    ensures !IsSpace(c)
  {
  }

  /** A run of digits reads as its value. */
  lemma ParseDigits(d: string)
    requires |d| > 0 && AllDigits(d)
    ensures ParseInt(d) == Some(DigitsValue(d))
  {
    DigitNotSpace(d[0]);
    DigitNotSpace(d[|d| - 1]);
    StripNoBorder(d);
  }

  /** A minus sign and a run of digits read as the negated value. */
  lemma ParseNegDigits(d: string, v: nat)
    requires |d| > 0 && AllDigits(d) && DigitsValue(d) == v
    ensures ParseInt("-" + d) == Some(-(v as int))
  {
    var s := "-" + d;
    SignedParts('-', d);
    DigitNotSpace(d[|d| - 1]);
    StripNoBorder(s);
    assert ParseInt(s) == SignedValue('-', d);
    NegValue(d);
  }

  lemma NegValue(d: string)
    requires |d| > 0 && AllDigits(d)
    ensures SignedValue('-', d) == Some(-(DigitsValue(d) as int))
  {
  }

  lemma SignedParts(c: char, d: string)
    requires |d| > 0
    ensures ([c] + d)[0] == c && ([c] + d)[1..] == d
    ensures ([c] + d)[|[c] + d| - 1] == d[|d| - 1]
  {
  }

  lemma ParseNat(m: nat)
    ensures ParseInt(IntToString(m)) == Some(m)
  {
    DigitsOfNat(m);
    ParseDigits(NatToString(m));
  }

  lemma ParseNegNat(m: nat)
    requires m > 0
    ensures ParseInt(IntToString(-(m as int))) == Some(-(m as int))
  {
    DigitsOfNat(m);
    ParseNegDigits(NatToString(m), m);
  }

  /** `int(str(n)) == n`. */
  lemma ParseIntToString(n: int)
    ensures ParseInt(IntToString(n)) == Some(n)
  {
    if n < 0 {
      ParseNegNat(-n);
    } else {
      ParseNat(n);
    }
  }

  // ---------------------------------------------------------------------
  // Code-point ordering of strings, as `sorted` and `min` use it

  /** `a <= b` in Python's ordering of strings. */
  predicate LexLe(a: string, b: string)
    decreases |a|
  {
    |a| == 0 || (|b| > 0 && (a[0] < b[0] || (a[0] == b[0] && LexLe(a[1..], b[1..]))))
  }

  lemma {:induction false} LexLeReflexive(a: string)
    ensures LexLe(a, a)
    decreases |a|
  {
    if |a| > 0 {
      LexLeReflexive(a[1..]);
    }
  }

  lemma {:induction false} LexLeTotal(a: string, b: string)
    ensures LexLe(a, b) || LexLe(b, a)
    decreases |a|
  {
    if |a| > 0 && |b| > 0 && a[0] == b[0] {
      LexLeTotal(a[1..], b[1..]);
    }
  }

  lemma {:induction false} LexLeTransitive(a: string, b: string, c: string)
    requires LexLe(a, b) && LexLe(b, c)
    ensures LexLe(a, c)
    decreases |a|
  {
    if |a| > 0 && a[0] == b[0] && b[0] == c[0] {
      LexLeTransitive(a[1..], b[1..], c[1..]);
    }
  }

  lemma {:induction false} LexLeAntisymmetric(a: string, b: string)
    requires LexLe(a, b) && LexLe(b, a)
    ensures a == b
    decreases |a|
  {
    if |a| > 0 {
      LexLeAntisymmetric(a[1..], b[1..]);
      assert a == [a[0]] + a[1..];
      assert b == [b[0]] + b[1..];
    }
  }

  /** The least string of a non-empty list, i.e. `sorted(xs)[0]`. */
  function LexMin(xs: seq<string>): (m: string)
    requires |xs| > 0
    ensures m in xs
    ensures forall k :: 0 <= k < |xs| ==> LexLe(m, xs[k])
    decreases |xs|
  {
    if |xs| == 1 then
      LexLeReflexive(xs[0]);
      xs[0]
    else
      var rest := LexMin(xs[1..]);
      LexLeTotal(xs[0], rest);
      if LexLe(xs[0], rest) then
        LexLeReflexive(xs[0]);
        assert forall k :: 1 <= k < |xs| ==> LexLe(xs[0], xs[k]) by {
          forall k | 1 <= k < |xs| ensures LexLe(xs[0], xs[k]) {
            assert xs[k] == xs[1..][k - 1];
            LexLeTransitive(xs[0], rest, xs[k]);
          }
        }
        xs[0]
      else
        assert forall k :: 1 <= k < |xs| ==> LexLe(rest, xs[k]) by {
          forall k | 1 <= k < |xs| ensures LexLe(rest, xs[k]) {
            assert xs[k] == xs[1..][k - 1];
          }
        }
        rest
  }
}
