module Sequences {

  predicate Increasing(s: seq<nat>) { forall i, j | 0 <= i < j < |s| :: s[i] < s[j] }

  lemma HeadIn(s: seq<nat>)
    ensures s == [] || s[0] in s
  {
  }

  /** A strictly increasing listing is determined by what it lists. */
  lemma {:induction false} ListingIsUnique(a: seq<nat>, b: seq<nat>)
    requires Increasing(a) && Increasing(b) && forall i :: i in a <==> i in b
    ensures a == b
  {
    if a == [] {
      HeadIn(b);
    } else {
      HeadIn(a);
      var m, n := |a| - 1, |b| - 1;
      LastIsGreatest(a);
      LastIsGreatest(b);
      hide Increasing;
      assert a[m] == b[n];
      ListingIsUnique(a[..m], b[..n]);
      assert a == a[..m] + [a[m]] && b == b[..n] + [b[n]];
    }
  }

  lemma LastIsGreatest(s: seq<nat>)
    requires Increasing(s) && s != []
    ensures var n := |s| - 1;
      && Increasing(s[..n]) && s[n] in s && (forall i | i in s :: i <= s[n])
      && forall i :: i in s[..n] <==> i in s && i != s[n]
  {
    var n := |s| - 1;
    assert s == s[..n] + [s[n]];
  }

  function NonEmpty(lines: seq<string>): (r: seq<string>)
    ensures |r| <= |lines|
  {
    if lines == [] then []
    else
      var last := lines[|lines| - 1];
      NonEmpty(lines[..|lines| - 1]) + if last == "" then [] else [last]
  }

  lemma {:induction false} NonEmptyAppend(a: seq<string>, b: seq<string>)
    ensures NonEmpty(a + b) == NonEmpty(a) + NonEmpty(b)
  {
    hide *;
    NonEmptyLast(b);
    if b == [] {
      assert a + b == a && NonEmpty(a) + [] == NonEmpty(a);
    } else {
      var n := |b| - 1;
      assert (a + b)[..|a + b| - 1] == a + b[..n] && (a + b)[|a + b| - 1] == b[n];
      NonEmptyAppend(a, b[..n]);
      NonEmptyLast(a + b);
      Associates(NonEmpty(a), NonEmpty(b[..n]), if b[n] == "" then [] else [b[n]]);
    }
  }

  lemma NonEmptyLast(lines: seq<string>)
    ensures NonEmpty(lines) ==
      if lines == [] then []
      else NonEmpty(lines[..|lines| - 1]) + if lines[|lines| - 1] == "" then [] else [lines[|lines| - 1]]
  {
  }

  lemma Associates<T>(a: seq<T>, b: seq<T>, c: seq<T>)
    ensures (a + b) + c == a + (b + c)
  {
  }

  /** Only empty lines are left out. */
  lemma {:induction false} NonEmptyKeeps(lines: seq<string>, line: string)
    ensures line in NonEmpty(lines) <==> line in lines && line != ""
  {
    if lines != [] {
      var n := |lines| - 1;
      assert lines == lines[..n] + [lines[n]];
      NonEmptyKeeps(lines[..n], line);
    }
  }
}
