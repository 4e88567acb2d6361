/** The commit-message cleaner: drops the tool credit lines from a message,
    and builds the rebase todo list that rewords the credited commits. */
module CommitCleaner {
  import opened Wrappers
  import opened Text
  import opened Seqs

  /** The credit line; the blank line after it goes as well. */
  const GeneratedMarker := "\U{1F916} Generated with " + "[Claude Code]"
  /** The co-author trailer. */
  const CoAuthorMarker := "Co-Authored-By: Claude " + "<noreply@anthropic.com>"
  /** What marks a commit as credited in the first place. */
  const CreditMark := "Claude Code"

  /** A whitespace-only line, the lines with `line.strip() == ""`
      (`BlankIsStripEmpty`). */
  predicate Blank(line: string) {
    AllSpace(line)
  }

  lemma BlankIsStripEmpty(line: string)
    ensures Blank(line) <==> Strip(line) == ""
  {
    var r := Strip(line);
    var i, j :| 0 <= i <= j <= |line| && r == line[i..j] && AllSpace(line[..i]) && AllSpace(line[j..]);
    if r == "" {
      assert line == line[..i] + line[j..];
    }
  }

  /** A credit-free line: the cleaner keeps it whatever its state. */
  predicate Plain(line: string) {
    !Contains(line, GeneratedMarker) && !Contains(line, CoAuthorMarker)
  }

  // ---------------------------------------------------------------------
  // The scan

  /** The flag after `line`: a credit line sets it, a blank line clears
      it, any other line leaves it. */
  function NextSkip(line: string, skip: bool): bool {
    if Contains(line, GeneratedMarker) then true
    else if skip && Blank(line) then false
    else skip
  }

  /** Whether the loop appends `line`: not a credit line, not the blank
      line a credit line asked to skip, not a co-author line. */
  predicate Kept(line: string, skip: bool) {
    !Contains(line, GeneratedMarker) && !(skip && Blank(line)) && !Contains(line, CoAuthorMarker)
  }

  /** The loop of `clean_commit_message` from a given `skip_next` flag: the
      kept lines and the flag at the end. */
  function Scan(lines: seq<string>, skip: bool): (r: (seq<string>, bool))
    ensures forall i :: 0 <= i < |r.0| ==> Plain(r.0[i])
    ensures forall i :: 0 <= i < |r.0| ==> r.0[i] in lines
    decreases |lines|
  {
    if |lines| == 0 then ([], skip)
    else
      var tail := Scan(lines[1..], NextSkip(lines[0], skip));
      assert forall x :: x in lines[1..] ==> x in lines;
      (if Kept(lines[0], skip) then [lines[0]] + tail.0 else tail.0, tail.1)
  }

  /** Scanning a concatenation scans the second part from the flag the
      first part ends with. */
  lemma {:induction false} ScanConcat(a: seq<string>, b: seq<string>, skip: bool)
    ensures Scan(a + b, skip) == (Scan(a, skip).0 + Scan(b, Scan(a, skip).1).0, Scan(b, Scan(a, skip).1).1)
    decreases |a|
  {
    if |a| == 0 {
      assert a + b == b;
      assert Scan(a, skip) == ([], skip);
      assert [] + Scan(b, skip).0 == Scan(b, skip).0;
    } else {
      assert (a + b)[0] == a[0];
      assert (a + b)[1..] == a[1..] + b;
      var s1 := NextSkip(a[0], skip);
      ScanConcat(a[1..], b, s1);
      var x := Scan(a[1..], s1);
      var y := Scan(b, x.1);
      assert Scan(a + b, skip).1 == y.1;
      assert Scan(a, skip).1 == x.1;
      if Kept(a[0], skip) {
        assert Scan(a + b, skip).0 == [a[0]] + (x.0 + y.0);
        assert Scan(a, skip).0 == [a[0]] + x.0;
        assert [a[0]] + (x.0 + y.0) == ([a[0]] + x.0) + y.0;
      }
    }
  }

  /** Lines that are neither blank nor credit lines leave the flag as it is
      and are treated the same under either flag: only a blank line clears
      it. */
  lemma {:induction false} FlagHeld(lines: seq<string>, skip: bool)
    requires forall i :: 0 <= i < |lines| ==> !Blank(lines[i]) && !Contains(lines[i], GeneratedMarker)
    ensures Scan(lines, skip).1 == skip
    ensures Scan(lines, skip).0 == Scan(lines, false).0
    decreases |lines|
  {
    if |lines| > 0 {
      FlagHeld(lines[1..], skip);
      FlagHeld(lines[1..], false);
    }
  }

  /** A whitespace-only line holds no credit line. */
  lemma BlankNotCredit(line: string)
    requires Blank(line)
    ensures !Contains(line, GeneratedMarker) && !Contains(line, CoAuthorMarker)
  {
    assert GeneratedMarker[2] == 'G' && CoAuthorMarker[0] == 'C';
    MissingCharNotContained(line, GeneratedMarker, 'G');
    MissingCharNotContained(line, CoAuthorMarker, 'C');
  }

  lemma ScanOne(line: string, skip: bool)
    ensures Scan([line], skip) == (if Kept(line, skip) then [line] else [], NextSkip(line, skip))
  {
    assert [line][1..] == [];
    assert Scan([line][1..], NextSkip(line, skip)) == ([], NextSkip(line, skip));
    assert [line] + [] == [line];
  }

  /** After a credit line, the next whitespace-only line is dropped along
      with it, and the lines between are kept as if no credit line had
      come; the scan goes on with the flag cleared. */
  lemma CreditEatsNextBlank(pre: seq<string>, credit: string, mid: seq<string>, blank: string,
                            post: seq<string>, skip: bool)
    requires Contains(credit, GeneratedMarker)
    requires forall i :: 0 <= i < |mid| ==> !Blank(mid[i]) && !Contains(mid[i], GeneratedMarker)
    requires Blank(blank)
    ensures Scan(pre + [credit] + mid + [blank] + post, skip).0
            == Scan(pre, skip).0 + Scan(mid, false).0 + Scan(post, false).0
  {
    var p := Scan(pre, skip);
    var m := Scan(mid, false).0;
    var q := Scan(post, false).0;
    CreditStep(pre, credit, skip);
    MidStep(pre + [credit], mid, skip, p.0);
    BlankStep(pre + [credit] + mid, blank, skip, p.0 + m);
    ScanConcat(pre + [credit] + mid + [blank], post, skip);
    assert Scan(pre + [credit] + mid + [blank] + post, skip).0 == p.0 + m + q;
  }

  lemma CreditStep(pre: seq<string>, credit: string, skip: bool)
    requires Contains(credit, GeneratedMarker)
    ensures Scan(pre + [credit], skip) == (Scan(pre, skip).0, true)
  {
    ScanConcat(pre, [credit], skip);
    ScanOne(credit, Scan(pre, skip).1);
    assert Scan(pre, skip).0 + [] == Scan(pre, skip).0;
  }

  lemma MidStep(a: seq<string>, mid: seq<string>, skip: bool, kept: seq<string>)
    requires Scan(a, skip) == (kept, true)
    requires forall i :: 0 <= i < |mid| ==> !Blank(mid[i]) && !Contains(mid[i], GeneratedMarker)
    ensures Scan(a + mid, skip) == (kept + Scan(mid, false).0, true)
  {
    ScanConcat(a, mid, skip);
    FlagHeld(mid, true);
  }

  lemma BlankStep(a: seq<string>, blank: string, skip: bool, kept: seq<string>)
    requires Scan(a, skip) == (kept, true)
    requires Blank(blank)
    ensures Scan(a + [blank], skip) == (kept, false)
  {
    ScanConcat(a, [blank], skip);
    BlankNotCredit(blank);
    ScanOne(blank, true);
    assert kept + [] == kept;
  }

  /** The scan keeps its lines in order: an index map into the input. */
  ghost predicate SubseqBy(a: seq<string>, b: seq<string>, idx: seq<nat>) {
    && |idx| == |a|
    && (forall i :: 0 <= i < |a| ==> idx[i] < |b| && a[i] == b[idx[i]])
    && (forall i, j :: 0 <= i < j < |a| ==> idx[i] < idx[j])
  }

  ghost predicate IsSubseq(a: seq<string>, b: seq<string>) {
    exists idx :: SubseqBy(a, b, idx)
  }

  lemma {:induction false} ScanSubseq(lines: seq<string>, skip: bool)
    ensures IsSubseq(Scan(lines, skip).0, lines)
    decreases |lines|
  {
    if |lines| == 0 {
      assert SubseqBy([], lines, []);
    } else {
      var line := lines[0];
      var rest := lines[1..];
      var s1 := NextSkip(line, skip);
      ScanSubseq(rest, s1);
      var tail := Scan(rest, s1).0;
      var idx :| SubseqBy(tail, rest, idx);
      SubseqShift(tail, lines, idx);
      if Kept(line, skip) {
        assert Scan(lines, skip).0 == [line] + tail;
      }
    }
  }

  /** The positions of a subsequence of the tail, moved one along. */
  function Shift(idx: seq<nat>): (r: seq<nat>)
    ensures |r| == |idx| && forall i :: 0 <= i < |idx| ==> r[i] == idx[i] + 1
  {
    seq(|idx|, i requires 0 <= i < |idx| => idx[i] + 1)
  }

  lemma SubseqShift(tail: seq<string>, lines: seq<string>, idx: seq<nat>)
    requires |lines| > 0 && SubseqBy(tail, lines[1..], idx)
    ensures SubseqBy(tail, lines, Shift(idx))
    ensures SubseqBy([lines[0]] + tail, lines, [0] + Shift(idx))
  {
  }

  // ---------------------------------------------------------------------
  // Trailing blank lines

  /** `while lines and lines[-1].strip() == "": lines.pop()`. */
  function DropTrailingBlank(lines: seq<string>): (r: seq<string>)
    ensures |r| <= |lines| && r == lines[..|r|]
    ensures |r| == 0 || !Blank(r[|r| - 1])
    ensures forall i :: |r| <= i < |lines| ==> Blank(lines[i])
    decreases |lines|
  {
    if |lines| > 0 && Blank(lines[|lines| - 1]) then DropTrailingBlank(lines[..|lines| - 1]) else lines
  }

  lemma SubseqPrefix(a: seq<string>, b: seq<string>, n: nat)
    requires IsSubseq(a, b) && n <= |a|
    ensures IsSubseq(a[..n], b)
  {
    var idx :| SubseqBy(a, b, idx);
    assert SubseqBy(a[..n], b, idx[..n]);
  }

  // ---------------------------------------------------------------------
  // clean_commit_message

  /** The lines of the cleaned message. */
  function CleanLines(message: string): (k: seq<string>)
    ensures forall i :: 0 <= i < |k| ==> Plain(k[i]) && '\n' !in k[i]
    ensures |k| == 0 || !Blank(k[|k| - 1])
    ensures IsSubseq(k, Split(message, '\n'))
  {
    var lines := Split(message, '\n');
    var k := DropTrailingBlank(Scan(lines, false).0);
    CleanLinesFacts(lines, k);
    k
  }

  lemma CleanLinesFacts(lines: seq<string>, k: seq<string>)
    requires forall i :: 0 <= i < |lines| ==> '\n' !in lines[i]
    requires k == DropTrailingBlank(Scan(lines, false).0)
    ensures forall i :: 0 <= i < |k| ==> Plain(k[i]) && '\n' !in k[i]
    ensures IsSubseq(k, lines)
  {
    var scanned := Scan(lines, false).0;
    ScanSubseq(lines, false);
    SubseqPrefix(scanned, lines, |k|);
    PlainPrefix(lines, scanned, k);
  }

  lemma PlainPrefix(lines: seq<string>, scanned: seq<string>, k: seq<string>)
    requires forall i :: 0 <= i < |lines| ==> '\n' !in lines[i]
    requires forall i :: 0 <= i < |scanned| ==> Plain(scanned[i]) && scanned[i] in lines
    requires |k| <= |scanned| && k == scanned[..|k|]
    ensures forall i :: 0 <= i < |k| ==> Plain(k[i]) && '\n' !in k[i]
  {
    forall i | 0 <= i < |k| ensures Plain(k[i]) && '\n' !in k[i] {
      assert k[i] == scanned[i];
      var j :| 0 <= j < |lines| && lines[j] == scanned[i];
    }
  }

  /** `clean_commit_message`: the cleaned lines joined again. */
  function CleanMessage(message: string): string {
    Join(CleanLines(message), "\n")
  }

  /** Lines without credits and without a trailing blank line go through the
      scan untouched. */
  lemma {:induction false} ScanPlain(lines: seq<string>)
    requires forall i :: 0 <= i < |lines| ==> Plain(lines[i])
    ensures Scan(lines, false).0 == lines
    decreases |lines|
  {
    if |lines| > 0 {
      ScanPlain(lines[1..]);
    }
  }

  /** Cleaning a cleaned message changes nothing. */
  lemma CleanIdempotent(message: string)
    ensures CleanMessage(CleanMessage(message)) == CleanMessage(message)
  {
    var k := CleanLines(message);
    var out := CleanMessage(message);
    if |k| == 0 {
      assert out == "";
      assert Split(out, '\n') == [""];
      assert Blank("");
      BlankNotCredit("");
      assert Scan([""], false).0 == [""];
      assert DropTrailingBlank([""]) == [];
    } else {
      SplitJoin(k, '\n');
      assert Split(out, '\n') == k;
      ScanPlain(k);
      assert CleanLines(out) == k;
    }
  }

  // ---------------------------------------------------------------------
  // The rebase todo list

  /** The commits `get_commits_with_claude` finds: `log` is `git log`'s
      newest-first list of (hash, message); the result keeps those whose
      message carries the credit mark, oldest first. */
  function CreditedCommits(log: seq<(string, string)>): (r: seq<string>)
    ensures forall x :: x in r <==> exists e :: e in log && e.0 == x && Contains(e.1, CreditMark)
    decreases |log|
  {
    if |log| == 0 then []
    else
      var rest := CreditedCommits(log[1..]);
      assert forall e :: e in log <==> e == log[0] || e in log[1..] by {
        assert log == [log[0]] + log[1..];
      }
      if Contains(log[0].1, CreditMark) then rest + [log[0].0] else rest
  }

  const Reword := "reword"
  const Pick := "pick"

  /** The todo list `main` writes: one line per commit of `git rev-list
      --reverse`, in that order, rewording exactly the credited ones. */
  function TodoList(commits: seq<string>, credited: seq<string>): (r: seq<string>)
    ensures |r| == |commits|
    ensures forall i :: 0 <= i < |commits| ==>
              (r[i] == Reword + " " + commits[i] <==> commits[i] in credited)
              && (r[i] == Pick + " " + commits[i] <==> commits[i] !in credited)
  {
    seq(|commits|, i requires 0 <= i < |commits| =>
      (if commits[i] in credited then Reword else Pick) + " " + commits[i])
  }

  /** `git rebase` reads each todo line back as its verb and its commit,
      and the file text splits back into the lines when no commit spans a
      line break. */
  lemma TodoReadBack(commits: seq<string>, credited: seq<string>)
    requires |commits| >= 1
    requires forall i :: 0 <= i < |commits| ==> '\n' !in commits[i]
    ensures var todo := TodoList(commits, credited);
            && Split(Join(todo, "\n"), '\n') == todo
            && forall i :: 0 <= i < |todo| ==>
                 SplitOnce(todo[i], ' ') == (if commits[i] in credited then Reword else Pick, commits[i])
  {
    var todo := TodoList(commits, credited);
    forall i | 0 <= i < |todo|
      ensures '\n' !in todo[i]
      ensures SplitOnce(todo[i], ' ') == (if commits[i] in credited then Reword else Pick, commits[i])
    {
      var verb := if commits[i] in credited then Reword else Pick;
      assert todo[i] == verb + [' '] + commits[i];
      assert ' ' !in verb;
      SplitOnceOf(verb, ' ', commits[i]);
    }
    SplitJoin(todo, '\n');
  }

  /** `main`: no credited commit means no rebase; otherwise the todo list
      over the commits from the oldest credited one's parent to `HEAD`
      (`revList`, oldest first). */
  function RebaseTodo(log: seq<(string, string)>, revList: seq<string>): (r: Option<seq<string>>)
    ensures r.None? <==> forall e :: e in log ==> !Contains(e.1, CreditMark)
    ensures r.Some? ==> r.value == TodoList(revList, CreditedCommits(log))
  {
    var credited := CreditedCommits(log);
    if |credited| == 0 then
      assert forall e :: e in log ==> !Contains(e.1, CreditMark) by {
        forall e | e in log ensures !Contains(e.1, CreditMark) {
          assert e.0 !in credited;
        }
      }
      None
    else
      assert credited[0] in credited;
      Some(TodoList(revList, credited))
  }
}
