/** The two-row edit distance of crates/yeomna-cli/src/main.rs. */
module EditDistance {

  function Min(x: nat, y: nat): nat {
    if x < y then x else y
  }

  function DropLast(s: string): string
    requires s != ""
  {
    s[..|s| - 1]
  }

  function Last(s: string): char
    requires s != ""
  {
    s[|s| - 1]
  }

  function Cost(x: char, y: char): nat {
    if x == y then 0 else 1
  }

  /** Unit-cost edit distance by recursion on the last characters. */
  function Lev(a: string, b: string): nat
    decreases |a| + |b|
  {
    if a == "" then |b|
    else if b == "" then |a|
    else Cheapest(Lev(DropLast(a), DropLast(b)), Lev(DropLast(a), b), Lev(a, DropLast(b)), Cost(Last(a), Last(b)))
  }

  /** The cheapest of replacing, deleting and inserting a last character. */
  function Cheapest(diagonal: nat, above: nat, left: nat, cost: nat): nat {
    Min(Min(diagonal + cost, above + 1), left + 1)
  }

  /** The row of the distance matrix that belongs to `x`. */
  ghost function Row(x: string, b: string): (r: seq<nat>)
    ensures |r| == |b| + 1 && r[0] == |x|
  {
    seq(|b| + 1, j requires 0 <= j <= |b| => Lev(x, b[..j]))
  }

  lemma RowStep(a: string, b: string, i: nat, j: nat)
    requires i < |a| && j < |b|
    ensures Row(a[..i + 1], b)[j + 1]
         == Cheapest(Row(a[..i], b)[j], Row(a[..i], b)[j + 1], Row(a[..i + 1], b)[j], Cost(a[i], b[j]))
  {
    var x, y := a[..i + 1], b[..j + 1];
    assert DropLast(x) == a[..i] && DropLast(y) == b[..j] && Last(x) == a[i] && Last(y) == b[j];
  }

  /** `distance`: two rows, swapped after each character of `a`. */
  method Distance(a: string, b: string) returns (d: nat)
    ensures d == Lev(a, b)
  {
    var prev := new nat[|b| + 1](j => j);
    var row := new nat[|b| + 1](_ => 0);
    ghost var above := Row(a[..0], b);
    for i := 0 to |a|
      invariant prev != row && prev.Length == row.Length == |b| + 1
      invariant fresh(prev) && fresh(row)
      invariant above == Row(a[..i], b) && prev[..] == above
    {
      row[0] := i + 1;
      FillRow(a, b, i, prev, row);
      prev, row := row, prev;
      above := Row(a[..i + 1], b);
    }
    d := prev[|b|];
    assert prev[..][|b|] == Row(a[..|a|], b)[|b|];
    assert a[..|a|] == a && b[..|b|] == b;
  }

  /** The inner loop: one row from the row above it. */
  method FillRow(a: string, b: string, i: nat, prev: array<nat>, row: array<nat>)
    requires i < |a| && prev != row && prev.Length == row.Length == |b| + 1
    requires prev[..] == Row(a[..i], b) && row[0] == i + 1
    modifies row
    ensures row[..] == Row(a[..i + 1], b)
  {
    ghost var above, here := Row(a[..i], b), Row(a[..i + 1], b);
    for j := 0 to |b|
      invariant forall k :: 0 <= k <= j ==> row[k] == here[k]
    {
      RowStep(a, b, i, j);
      assert prev[j] == prev[..][j] && prev[j + 1] == prev[..][j + 1];
      row[j + 1] := Min(Min(prev[j] + Cost(a[i], b[j]), prev[j + 1] + 1), row[j] + 1);
    }
  }

  // ---- A metric ----

  lemma {:induction false} LevZero(a: string, b: string)
    ensures Lev(a, b) == 0 <==> a == b
    decreases |a| + |b|
  {
    if a != "" && b != "" {
      LevZero(DropLast(a), DropLast(b));
      assert a == DropLast(a) + [Last(a)] && b == DropLast(b) + [Last(b)];
    }
  }

  lemma {:induction false} LevSymmetric(a: string, b: string)
    ensures Lev(a, b) == Lev(b, a)
    decreases |a| + |b|
  {
    if a != "" && b != "" {
      LevSymmetric(DropLast(a), DropLast(b));
      LevSymmetric(a, DropLast(b));
      LevSymmetric(DropLast(a), b);
    }
  }

  /** Dropping a last character moves the distance by at most one. */
  lemma LevDrop(a: string, b: string)
    requires a != ""
    ensures Lev(a, b) <= Lev(DropLast(a), b) + 1
  {
  }

  lemma {:induction false} LevTriangle(a: string, b: string, c: string)
    ensures Lev(a, c) <= Lev(a, b) + Lev(b, c)
    decreases |a| + |b| + |c|
  {
    if b == "" {
      LevBound(a, c);
    } else if a == "" {
      LevLength(b, c);
    } else if c == "" {
      LevLength(a, b);
    } else {
      var a', b', c' := DropLast(a), DropLast(b), DropLast(c);
      LevTriangle(a', b, c);
      LevTriangle(a, b, c');
      LevTriangle(a', b', c');
      LevTriangle(a', b', c);
      LevTriangle(a, b', c');
      LevTriangle(a, b', c);
    }
  }

  /** Deleting one string and inserting the other is never better than `Lev`. */
  lemma {:induction false} LevBound(a: string, b: string)
    ensures Lev(a, b) <= |a| + |b|
    decreases |a|
  {
    if a != "" && b != "" {
      LevBound(DropLast(a), b);
    }
  }

  lemma {:induction false} LevLength(a: string, b: string)
    ensures |a| <= Lev(a, b) + |b| && |b| <= Lev(a, b) + |a|
    decreases |a| + |b|
  {
    if a != "" && b != "" {
      LevLength(DropLast(a), DropLast(b));
      LevLength(a, DropLast(b));
      LevLength(DropLast(a), b);
    }
  }

  // ---- The least number of single-character edits ----

  predicate DeletesAt(a: string, b: string, i: int) {
    0 <= i < |a| && b == a[..i] + a[i + 1..]
  }

  predicate SubstitutesAt(a: string, b: string, i: int) {
    0 <= i < |a| == |b| && b == a[..i] + [b[i]] + a[i + 1..]
  }

  ghost predicate Deletes(a: string, b: string) {
    exists i :: DeletesAt(a, b, i)
  }

  ghost predicate Substitutes(a: string, b: string) {
    exists i :: SubstitutesAt(a, b, i)
  }

  /** `b` is `a` with one character deleted, inserted or replaced. */
  ghost predicate OneEdit(a: string, b: string) {
    Deletes(a, b) || Deletes(b, a) || Substitutes(a, b)
  }

  ghost predicate EditPath(p: seq<string>, a: string, b: string) {
    && p != [] && p[0] == a && p[|p| - 1] == b
    && forall k :: 0 <= k < |p| - 1 ==> OneEdit(p[k], p[k + 1])
  }

  lemma LevAppendChar(a: string, b: string, c: char)
    ensures Lev(a + [c], b + [c]) <= Lev(a, b)
  {
    var x, y := a + [c], b + [c];
    assert DropLast(x) == a && DropLast(y) == b;
  }

  lemma {:induction false} LevSuffix(a: string, b: string, s: string)
    ensures Lev(a + s, b + s) <= Lev(a, b)
    decreases |s|
  {
    if s == "" {
      assert a + s == a && b + s == b;
    } else {
      var x, y := a + [s[0]], b + [s[0]];
      assert x + s[1..] == a + s && y + s[1..] == b + s;
      LevAppendChar(a, b, s[0]);
      LevSuffix(x, y, s[1..]);
    }
  }

  lemma LevDelete(a: string, b: string)
    requires Deletes(a, b)
    ensures Lev(a, b) <= 1
  {
    var i :| DeletesAt(a, b, i);
    var p, q, s := a[..i + 1], a[..i], a[i + 1..];
    assert a == p + s;
    LevSuffix(p, q, s);
    assert DropLast(p) == q;
    LevDrop(p, q);
    LevZero(q, q);
  }

  lemma LevSubstitute(a: string, b: string)
    requires Substitutes(a, b)
    ensures Lev(a, b) <= 1
  {
    var i :| SubstitutesAt(a, b, i);
    var p, q, r, s := a[..i + 1], a[..i] + [b[i]], a[..i], a[i + 1..];
    assert a == p + s && b == q + s;
    LevSuffix(p, q, s);
    assert DropLast(p) == r == DropLast(q);
    LevZero(r, r);
  }

  lemma LevOneEdit(a: string, b: string)
    requires OneEdit(a, b)
    ensures Lev(a, b) <= 1
  {
    if Deletes(a, b) {
      LevDelete(a, b);
    } else if Deletes(b, a) {
      LevDelete(b, a);
      LevSymmetric(a, b);
    } else {
      LevSubstitute(a, b);
    }
  }

  lemma {:induction false} PathIsNoShorter(p: seq<string>, a: string, b: string)
    requires EditPath(p, a, b)
    ensures Lev(a, b) <= |p| - 1
    decreases |p|
  {
    if |p| == 1 {
      LevZero(a, b);
    } else {
      LevOneEdit(p[0], p[1]);
      PathIsNoShorter(p[1..], p[1], b);
      LevTriangle(a, p[1], b);
    }
  }

  lemma DeletesAppend(a: string, b: string, c: char)
    requires Deletes(a, b)
    ensures Deletes(a + [c], b + [c])
  {
    var i :| DeletesAt(a, b, i);
    assert (a + [c])[..i] == a[..i] && (a + [c])[i + 1..] == a[i + 1..] + [c];
    assert DeletesAt(a + [c], b + [c], i);
  }

  lemma SubstitutesAppend(a: string, b: string, c: char)
    requires Substitutes(a, b)
    ensures Substitutes(a + [c], b + [c])
  {
    var i :| SubstitutesAt(a, b, i);
    var x, y := a + [c], b + [c];
    assert x[..i] == a[..i] && x[i + 1..] == a[i + 1..] + [c] && y[i] == b[i];
    assert y == x[..i] + [y[i]] + x[i + 1..];
    assert SubstitutesAt(x, y, i);
  }

  lemma OneEditAppend(a: string, b: string, c: char)
    requires OneEdit(a, b)
    ensures OneEdit(a + [c], b + [c])
  {
    if Deletes(a, b) {
      DeletesAppend(a, b, c);
    } else if Deletes(b, a) {
      DeletesAppend(b, a, c);
    } else {
      SubstitutesAppend(a, b, c);
    }
  }

  lemma AppendToPath(p: seq<string>, a: string, b: string, c: char) returns (q: seq<string>)
    requires EditPath(p, a, b)
    ensures EditPath(q, a + [c], b + [c]) && |q| == |p|
  {
    q := seq(|p|, k requires 0 <= k < |p| => p[k] + [c]);
    forall k | 0 <= k < |q| - 1 ensures OneEdit(q[k], q[k + 1]) {
      OneEditAppend(p[k], p[k + 1], c);
    }
  }

  lemma DropLastDeletes(a: string)
    requires a != ""
    ensures Deletes(a, DropLast(a))
  {
    assert DeletesAt(a, DropLast(a), |a| - 1);
  }

  lemma ReplaceLast(a: string, x: char, y: char)
    ensures Substitutes(a + [x], a + [y])
  {
    assert SubstitutesAt(a + [x], a + [y], |a|);
  }

  lemma ExtendPath(p: seq<string>, a: string, b: string, c: string)
    requires EditPath(p, a, b) && OneEdit(b, c)
    ensures EditPath(p + [c], a, c)
  {
    var q := p + [c];
    forall k | 0 <= k < |q| - 1 ensures OneEdit(q[k], q[k + 1]) {
      if k < |p| - 1 { assert OneEdit(p[k], p[k + 1]); }
    }
  }

  lemma PrefixPath(p: seq<string>, a: string, b: string, c: string)
    requires EditPath(p, b, c) && OneEdit(a, b)
    ensures EditPath([a] + p, a, c)
  {
    var q := [a] + p;
    forall k | 0 <= k < |q| - 1 ensures OneEdit(q[k], q[k + 1]) {
      if k > 0 { assert OneEdit(p[k - 1], p[k]); }
    }
  }

  lemma {:induction false} ShortestPath(a: string, b: string) returns (p: seq<string>)
    ensures EditPath(p, a, b) && |p| - 1 == Lev(a, b)
    decreases |a| + |b|
  {
    if a == "" && b == "" {
      p := [a];
    } else if a != "" && (b == "" || Lev(a, b) == Lev(DropLast(a), b) + 1) {
      p := ShortestPath(DropLast(a), b);
      DropLastDeletes(a);
      PrefixPath(p, a, DropLast(a), b);
      p := [a] + p;
    } else if a == "" || Lev(a, b) == Lev(a, DropLast(b)) + 1 {
      p := ShortestPath(a, DropLast(b));
      DropLastDeletes(b);
      ExtendPath(p, a, DropLast(b), b);
      p := p + [b];
    } else {
      p := ShortestPath(DropLast(a), DropLast(b));
      p := AppendToPath(p, DropLast(a), DropLast(b), Last(a));
      assert a == DropLast(a) + [Last(a)] && b == DropLast(b) + [Last(b)];
      if Last(a) != Last(b) {
        ReplaceLast(DropLast(b), Last(a), Last(b));
        ExtendPath(p, a, DropLast(b) + [Last(a)], b);
        p := p + [b];
      }
    }
  }

  /** Main result: the distance is the least number of single-character edits between the strings. */
  lemma LevIsLeast(a: string, b: string)
    ensures exists p :: EditPath(p, a, b) && |p| - 1 == Lev(a, b)
    ensures forall p :: EditPath(p, a, b) ==> Lev(a, b) <= |p| - 1
  {
    var p := ShortestPath(a, b);
    forall p | EditPath(p, a, b) ensures Lev(a, b) <= |p| - 1 {
      PathIsNoShorter(p, a, b);
    }
  }
}
