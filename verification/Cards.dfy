/**
 * The card validator's error report: the leaves of the error tree, one line each,
 * deduplicated in place and sorted.
 */
module Cards {
  import opened Strings

  // A validation error: where it is in the card, the library's message, and its causes.
  datatype Violation = Violation(location: seq<string>, message: string, causes: seq<Violation>)

  // What validation returns: a tree of violations, or an error of another kind.
  datatype CardError = Invalid(violation: Violation) | Other(text: string)

  // Stands for the explanation given where `required` is used; its wording is not modelled.
  const REQUIRED_HINT := "use `intent` instead of `required`"

  function Location(v: Violation): string {
    if |v.location| == 0 then "(root)" else "/" + Join(v.location, "/")
  }

  function Describe(v: Violation): string {
    if HasSuffix(Location(v), "/required") then REQUIRED_HINT else v.message
  }

  function Line(v: Violation): string {
    "  " + Location(v) + ": " + Describe(v)
  }

  // The lines of the leaves, left to right.
  function Leaves(v: Violation): seq<string>
    decreases v, 1
  {
    if |v.causes| > 0 then LeavesOf(v.causes) else [Line(v)]
  }

  function LeavesOf(vs: seq<Violation>): seq<string>
    decreases vs, 0
  {
    if |vs| == 0 then [] else Leaves(vs[0]) + LeavesOf(vs[1..])
  }

  // The slice that the walk's closure appends to.
  class Report {
    var lines: seq<string>

    constructor ()
      ensures lines == []
    {
      lines := [];
    }

    method Walk(v: Violation)
      modifies this
      ensures lines == old(lines) + Leaves(v)
      decreases v
    {
      hide Line;
      if |v.causes| > 0 {
        for i := 0 to |v.causes|
          invariant lines + LeavesOf(v.causes[i..]) == old(lines) + LeavesOf(v.causes)
        {
          ghost var before, rest := lines, LeavesOf(v.causes[i + 1..]);
          assert v.causes[i..][1..] == v.causes[i + 1..];
          Walk(v.causes[i]);
          assert lines + rest == before + (Leaves(v.causes[i]) + rest);
        }
        return;
      }
      lines := lines + [Line(v)];
    }
  }

  // --- Deduplication ------------------------------------------------------------------

  // Every element at its first occurrence.
  function Deduped(s: seq<string>): (r: seq<string>)
    ensures |r| <= |s|
  {
    if |s| == 0 then []
    else
      var init, last := Deduped(s[..|s| - 1]), s[|s| - 1];
      if last in s[..|s| - 1] then init else init + [last]
  }

  lemma {:induction false} DedupedElements(s: seq<string>)
    ensures forall x :: x in Deduped(s) <==> x in s
    ensures forall i, j :: 0 <= i < j < |Deduped(s)| ==> Deduped(s)[i] != Deduped(s)[j]
  {
    if |s| > 0 {
      DedupedElements(s[..|s| - 1]);
      assert s == s[..|s| - 1] + [s[|s| - 1]];
    }
  }

  // In place: the result grows over the front of the array that is still being read.  No
  // element is overwritten before its turn.
  method Dedup(a: array<string>) returns (n: nat)
    modifies a
    ensures n <= a.Length && a[..n] == Deduped(old(a[..]))
  {
    var seen: set<string> := {};
    ghost var was := a[..];
    n := 0;
    for i := 0 to a.Length
      invariant n <= i
      invariant a[..n] == Deduped(was[..i])
      invariant a[i..] == was[i..]
      invariant forall x :: x in seen <==> x in was[..i]
    {
      var line := a[i];
      assert was[..i + 1][..i] == was[..i] && was[i] == a[i..][0];
      if line !in seen {
        seen := seen + {line};
        a[n] := line;
        n := n + 1;
      }
    }
    assert was[..a.Length] == was;
  }

  // --- Sorting ------------------------------------------------------------------------

  // Strings in the order of the sort.
  predicate Before(a: string, b: string) {
    |b| > 0 && (|a| == 0 || a[0] < b[0] || (a[0] == b[0] && Before(a[1..], b[1..])))
  }

  lemma {:induction false} BeforeTotal(a: string, b: string)
    ensures a == b <==> !Before(a, b) && !Before(b, a)
    ensures !(Before(a, b) && Before(b, a))
  {
    if |a| > 0 && |b| > 0 {
      BeforeTotal(a[1..], b[1..]);
      if a[0] == b[0] && a[1..] == b[1..] {
        assert a == [a[0]] + a[1..] == b;
      }
    }
  }

  lemma {:induction false} BeforeTransitive(a: string, b: string, c: string)
    requires Before(a, b) && Before(b, c)
    ensures Before(a, c)
  {
    if |a| > 0 && a[0] == b[0] == c[0] {
      BeforeTransitive(a[1..], b[1..], c[1..]);
    }
  }

  // They agree up to place k, and there a ends or has the smaller character.
  predicate LessAt(a: string, b: string, k: nat) {
    k <= |a| && k < |b| && a[..k] == b[..k] && (k == |a| || a[k] < b[k])
  }

  lemma FirstAgrees(a: string, b: string, k: nat)
    requires LessAt(a, b, k)
    ensures k > 0 ==> a[0] == b[0]
  {
    assert k > 0 ==> a[..k][0] == b[..k][0];
  }

  // The order is the lexicographic one.
  lemma {:induction false} BeforeIsLexicographic(a: string, b: string)
    ensures Before(a, b) <==> exists k: nat :: LessAt(a, b, k)
  {
    if |b| > 0 && LessAt(a, b, 0) {
      assert exists k: nat :: LessAt(a, b, k);
    } else if |a| > 0 && |b| > 0 && a[0] == b[0] {
      BeforeIsLexicographic(a[1..], b[1..]);
      if k: nat :| LessAt(a[1..], b[1..], k) {
        assert a[..k + 1] == [a[0]] + a[1..][..k] && b[..k + 1] == [b[0]] + b[1..][..k];
        assert LessAt(a, b, k + 1);
      }
      if k: nat :| LessAt(a, b, k) {
        assert a[1..][..k - 1] == a[..k][1..] && b[1..][..k - 1] == b[..k][1..];
        assert LessAt(a[1..], b[1..], k - 1);
      }
    } else if k: nat :| LessAt(a, b, k) {
      FirstAgrees(a, b, k);
    }
  }

  function Insert(x: string, s: seq<string>): seq<string> {
    if |s| > 0 && Before(s[0], x) then [s[0]] + Insert(x, s[1..]) else [x] + s
  }

  function Sorted(s: seq<string>): seq<string> {
    if |s| == 0 then [] else Insert(s[0], Sorted(s[1..]))
  }

  ghost predicate Increasing(s: seq<string>) {
    forall i, j :: 0 <= i < j < |s| ==> Before(s[i], s[j])
  }

  lemma {:induction false} InsertIncreasing(x: string, s: seq<string>)
    requires Increasing(s) && x !in s
    ensures Increasing(Insert(x, s))
    ensures forall y :: y in Insert(x, s) <==> y == x || y in s
  {
    if |s| > 0 {
      assert s == [s[0]] + s[1..];
      if Before(s[0], x) {
        InsertIncreasing(x, s[1..]);
        var rest := Insert(x, s[1..]);
        forall j | 0 <= j < |rest| ensures Before(s[0], rest[j]) {
          assert rest[j] in rest;
          if rest[j] != x {
            var k :| 0 <= k < |s[1..]| && s[1..][k] == rest[j];
            assert Before(s[0], s[k + 1]);
          }
        }
      } else {
        BeforeTotal(x, s[0]);
        assert s[0] in s;
        forall j | 0 <= j < |s| ensures Before(x, s[j]) {
          if j > 0 {
            BeforeTransitive(x, s[0], s[j]);
          }
        }
      }
    }
  }

  lemma {:induction false} SortedIncreasing(s: seq<string>)
    requires forall i, j :: 0 <= i < j < |s| ==> s[i] != s[j]
    ensures Increasing(Sorted(s))
    ensures forall x :: x in Sorted(s) <==> x in s
  {
    if |s| > 0 {
      assert s == [s[0]] + s[1..];
      SortedIncreasing(s[1..]);
      InsertIncreasing(s[0], Sorted(s[1..]));
    }
  }

  // --- The report ---------------------------------------------------------------------

  // What the report says of a tree.
  function ReportLines(v: Violation): seq<string> {
    Sorted(Deduped(Leaves(v)))
  }

  // An error of another kind is only indented, line by line and in place.
  function Indented(lines: seq<string>): seq<string> {
    seq(|lines|, i requires 0 <= i < |lines| => "  " + lines[i])
  }

  method IndentLines(text: string) returns (indented: string)
    ensures indented == Join(Indented(Split(TrimRight(text))), "\n")
  {
    hide Join, Split, TrimRight;
    var parts := Split(TrimRight(text));
    var lines := new string[|parts|](i requires 0 <= i < |parts| => parts[i]);
    for i := 0 to lines.Length
      invariant forall k :: 0 <= k < i ==> lines[k] == "  " + parts[k]
      invariant forall k :: i <= k < lines.Length ==> lines[k] == parts[k]
    {
      lines[i] := "  " + lines[i];
    }
    assert lines[..] == Indented(parts);
    indented := Join(lines[..], "\n");
  }

  // Taking the indentation away gives the text back.
  lemma IndentationComesOff(text: string)
    ensures var lines := Indented(Split(TrimRight(text)));
            && (forall i :: 0 <= i < |lines| ==> HasPrefix(lines[i], "  "))
            && Join(seq(|lines|, i requires 0 <= i < |lines| => lines[i][2..]), "\n") == TrimRight(text)
  {
    var parts := Split(TrimRight(text));
    var lines := Indented(parts);
    assert seq(|lines|, i requires 0 <= i < |lines| => lines[i][2..]) == parts;
    JoinReadsSplit(TrimRight(text));
  }

  method FormatValidationError(error: CardError) returns (text: string)
    ensures error.Invalid? ==> text == Join(ReportLines(error.violation), "\n")
    ensures error.Other? ==> text == Join(Indented(Split(TrimRight(error.text))), "\n")
  {
    if error.Other? {
      text := IndentLines(error.text);
      return;
    }
    var v := error.violation;
    var report := new Report();
    report.Walk(v);
    var lines := report.lines;
    assert lines == Leaves(v);
    LeavesNotEmpty(v);
    assert |lines| > 0;   // so the branch for no lines is never taken
    var backing := new string[|lines|](i requires 0 <= i < |lines| => lines[i]);
    assert backing[..] == lines;
    var n := Dedup(backing);
    text := Join(Sorted(backing[..n]), "\n");
  }

  // Every tree has a leaf.
  lemma {:induction false} LeavesNotEmpty(v: Violation)
    ensures |Leaves(v)| > 0
    decreases v
  {
    if |v.causes| > 0 {
      LeavesNotEmpty(v.causes[0]);
    }
  }

  // The report's lines are strictly increasing and are the leaf lines, all and only.
  lemma ReportCanonical(v: Violation)
    ensures Increasing(ReportLines(v)) && |ReportLines(v)| > 0
    ensures forall x :: x in ReportLines(v) <==> x in Leaves(v)
  {
    DedupedElements(Leaves(v));
    SortedIncreasing(Deduped(Leaves(v)));
    LeavesNotEmpty(v);
    assert Leaves(v)[0] in ReportLines(v);
  }

  // A node of the tree: the root, or a node below one of its causes.
  ghost predicate Below(d: Violation, v: Violation)
    decreases v
  {
    d == v || exists c :: c in v.causes && Below(d, c)
  }

  // What a node has to say: its place, then why.
  predicate Says(d: Violation, line: string) {
    var place := if |d.location| == 0 then "(root)" else "/" + Join(d.location, "/");
    var required := |place| >= 9 && place[|place| - 9..] == "/required";
    line == "  " + place + ": " + (if required then REQUIRED_HINT else d.message)
  }

  lemma SaysItsLine(d: Violation, line: string)
    ensures Says(d, line) <==> line == Line(d)
  {
    hide Join;
  }

  lemma {:induction false} LeavesAreLeafLines(v: Violation, x: string)
    ensures x in Leaves(v) <==> exists d :: Below(d, v) && |d.causes| == 0 && Says(d, x)
    decreases v
  {
    hide Says, Line;
    if |v.causes| == 0 {
      SaysItsLine(v, x);
    } else {
      LeavesOfElements(v.causes);
      assert Leaves(v) == LeavesOf(v.causes);
      forall c | c in v.causes
        ensures x in Leaves(c) <==> exists d :: Below(d, c) && |d.causes| == 0 && Says(d, x)
      {
        LeavesAreLeafLines(c, x);
      }
      if x in Leaves(v) {
        var c :| c in v.causes && x in Leaves(c);
        var d :| Below(d, c) && |d.causes| == 0 && Says(d, x);
        assert Below(d, v);
      }
    }
  }

  // A line is in the report exactly when some node without causes says it.
  lemma ReportIsOfLeaves(v: Violation, x: string)
    ensures x in ReportLines(v) <==> exists d :: Below(d, v) && |d.causes| == 0 && Says(d, x)
  {
    ReportCanonical(v);
    LeavesAreLeafLines(v, x);
  }

  // Strictly increasing lists are determined by their elements.
  lemma {:induction false} IncreasingUnique(a: seq<string>, b: seq<string>)
    requires Increasing(a) && Increasing(b)
    requires forall x :: x in a <==> x in b
    ensures a == b
  {
    assert |b| > 0 ==> b[0] in b;
    if |a| > 0 {
      assert a[0] in b && b[0] in a;
      LeastFirst(a, b[0]);
      LeastFirst(b, a[0]);
      BeforeTotal(a[0], b[0]);
      BeforeTotal(a[0], a[0]);
      assert a == [a[0]] + a[1..] && b == [b[0]] + b[1..];
      forall x ensures x in a[1..] <==> x in b[1..] {
        if x in a[1..] {
          var i :| 0 <= i < |a[1..]| && a[1..][i] == x;
          assert Before(a[0], a[i + 1]);
          assert x in b;
        }
        if x in b[1..] {
          var i :| 0 <= i < |b[1..]| && b[1..][i] == x;
          assert Before(b[0], b[i + 1]);
          assert x in a;
        }
      }
      IncreasingUnique(a[1..], b[1..]);
    }
  }

  lemma LeastFirst(a: seq<string>, x: string)
    requires Increasing(a) && x in a
    ensures a[0] == x || Before(a[0], x)
  {
  }

  ghost predicate SameLeaves(v: Violation, w: Violation) {
    forall x :: x in Leaves(v) <==> x in Leaves(w)
  }

  // Trees with the same leaf lines have the same report.
  lemma SameLeavesSameReport(v: Violation, w: Violation)
    requires SameLeaves(v, w)
    ensures ReportLines(v) == ReportLines(w)
  {
    ReportCanonical(v);
    ReportCanonical(w);
    IncreasingUnique(ReportLines(v), ReportLines(w));
  }

  lemma {:induction false} LeavesOfElements(vs: seq<Violation>)
    ensures forall x :: x in LeavesOf(vs) <==> exists v :: v in vs && x in Leaves(v)
  {
    if |vs| > 0 {
      LeavesOfElements(vs[1..]);
      assert vs == [vs[0]] + vs[1..];
      forall x ensures x in LeavesOf(vs) <==> exists v :: v in vs && x in Leaves(v) {
        if v :| v in vs && x in Leaves(v) {
          assert v == vs[0] || v in vs[1..];
        }
        if x in LeavesOf(vs) {
          if x in Leaves(vs[0]) {
            assert vs[0] in vs;
          } else {
            var v :| v in vs[1..] && x in Leaves(v);
            assert v in vs;
          }
        }
      }
    }
  }

  // Causes may be permuted or repeated, and replaced by others with the same leaf lines,
  // at any node: the leaf lines stay the same, and so does the report.
  lemma CausesAsSet(v: Violation, causes: seq<Violation>)
    requires |v.causes| > 0 && |causes| > 0
    requires forall c :: c in v.causes ==> exists d :: d in causes && SameLeaves(c, d)
    requires forall d :: d in causes ==> exists c :: c in v.causes && SameLeaves(d, c)
    ensures SameLeaves(v, v.(causes := causes))
    ensures ReportLines(v.(causes := causes)) == ReportLines(v)
  {
    var w := v.(causes := causes);
    CoveredLeaves(v.causes, causes);
    CoveredLeaves(causes, v.causes);
    assert Leaves(v) == LeavesOf(v.causes) && Leaves(w) == LeavesOf(causes);
    SameLeavesSameReport(w, v);
  }

  lemma CoveredLeaves(vs: seq<Violation>, ws: seq<Violation>)
    requires forall v :: v in vs ==> exists w :: w in ws && SameLeaves(v, w)
    ensures forall x :: x in LeavesOf(vs) ==> x in LeavesOf(ws)
  {
    LeavesOfElements(vs);
    LeavesOfElements(ws);
    hide Leaves, LeavesOf;
    forall x | x in LeavesOf(vs) ensures x in LeavesOf(ws) {
      var v :| v in vs && x in Leaves(v);
      var w :| w in ws && SameLeaves(v, w);
      assert x in Leaves(w);
    }
  }
}
