/** Permission globs: compiled to a regular expression's text, which is then read by the rules of ECMA-262. */
module Glob {
  import opened Options

  /** The characters the compiler escapes: every SyntaxCharacter of section 22.2.1 of ECMA-262 but `*`. */
  predicate Escaped(c: char) { c in "\\^$.|?+()[]{}" }

  function GlobBody(p: string): string {
    if p == "" then ""
    else if p[0] == '*' then
      if |p| > 1 && p[1] == '*' then ".*" + GlobBody(p[2..]) else "[^/]*" + GlobBody(p[1..])
    else if Escaped(p[0]) then ['\\', p[0]] + GlobBody(p[1..])
    else [p[0]] + GlobBody(p[1..])
  }

  /** One unfolding of `GlobBody` in the middle of a pattern. */
  lemma OnePiece(pattern: string, i: nat, piece: string, next: nat, out: string)
    requires i < |pattern| && i < next <= |pattern|
    requires GlobBody(pattern[i..]) == piece + GlobBody(pattern[i..][next - i..])
    ensures out + GlobBody(pattern[i..]) == (out + piece) + GlobBody(pattern[next..])
  {
    assert pattern[i..][next - i..] == pattern[next..];
  }

  method GlobToRegExp(pattern: string) returns (text: string)
    ensures text == "^" + GlobBody(pattern) + "$"
  {
    var out := "";
    var i := 0;
    while i < |pattern|
      invariant 0 <= i <= |pattern|
      invariant out + GlobBody(pattern[i..]) == GlobBody(pattern)
    {
      var c := pattern[i];
      ghost var before, from := out, i;
      var piece: string;
      if c == '*' {
        if i + 1 < |pattern| && pattern[i + 1] == '*' {
          piece := ".*";
          i := i + 1;
        } else {
          piece := "[^/]*";
        }
      } else if Escaped(c) {
        piece := ['\\', c];
      } else {
        piece := [c];
      }
      out := out + piece;
      i := i + 1;
      OnePiece(pattern, from, piece, i, before);
    }
    text := "^" + out + "$";
  }

  // ---- reading the text: the fragment of section 22.2.1 of ECMA-262 that it lies in ----

  datatype Atom = Lit(c: char) | Dot | NotSlash
  datatype Item = Item(atom: Atom, starred: bool)

  predicate SyntaxChar(c: char) { Escaped(c) || c == '*' }

  /** The atom a pattern text opens with and the text after it; nothing outside the fragment is read. */
  function ReadAtom(t: string): (r: Option<(Atom, string)>)
    ensures r.Some? ==> |r.value.1| < |t|
  {
    if t == "" then None
    else if t[0] == '\\' then
      if |t| > 1 && SyntaxChar(t[1]) then Some((Lit(t[1]), t[2..])) else None
    else if t[0] == '.' then Some((Dot, t[1..]))
    else if "[^/]" <= t then Some((NotSlash, t[4..]))
    else if SyntaxChar(t[0]) then None
    else Some((Lit(t[0]), t[1..]))
  }

  function ReadItems(t: string): Option<seq<Item>>
    decreases |t|
  {
    if t == "" then Some([])
    else
      var first := ReadAtom(t);
      if first.None? then None
      else
        var starred := first.value.1 != "" && first.value.1[0] == '*';
        var rest := ReadItems(if starred then first.value.1[1..] else first.value.1);
        if rest.None? then None else Some([Item(first.value.0, starred)] + rest.value)
  }

  /** Section 12.3 of ECMA-262. */
  predicate LineTerminator(c: char) { c == '\n' || c == '\r' || c == '\U{2028}' || c == '\U{2029}' }

  predicate AtomMatches(a: Atom, c: char) {
    match a
    case Lit(d) => c == d
    case Dot => !LineTerminator(c)
    case NotSlash => c != '/'
  }

  predicate AllMatch(a: Atom, s: string) { forall i | 0 <= i < |s| :: AtomMatches(a, s[i]) }

  predicate Matches(items: seq<Item>, s: string)
    decreases |items|
  {
    if items == [] then s == ""
    else if items[0].starred then
      exists k :: 0 <= k <= |s| && AllMatch(items[0].atom, s[..k]) && Matches(items[1..], s[k..])
    else s != "" && AtomMatches(items[0].atom, s[0]) && Matches(items[1..], s[1..])
  }

  /** `new RegExp(text).test(s)` for an anchored text of the fragment. */
  predicate Accepts(text: string, s: string) {
    && |text| >= 2 && text[0] == '^' && text[|text| - 1] == '$'
    && ReadItems(text[1..|text| - 1]).Some?
    && Matches(ReadItems(text[1..|text| - 1]).value, s)
  }

  // ---- what a glob denotes ----

  function StarRun(p: string): (n: nat)
    ensures n <= |p| && (p != "" && p[0] == '*' ==> n > 0)
  {
    if p == "" || p[0] != '*' then 0 else 1 + StarRun(p[1..])
  }

  /** One star stands for any text without a slash, two or more for any text, all else for itself. */
  predicate Denotes(p: string, s: string)
    decreases |p|
  {
    if p == "" then s == ""
    else if p[0] == '*' then
      exists k :: 0 <= k <= |s| && (StarRun(p) == 1 ==> '/' !in s[..k]) && Denotes(p[StarRun(p)..], s[k..])
    else s != "" && s[0] == p[0] && Denotes(p[1..], s[1..])
  }

  predicate OneLine(s: string) { forall i | 0 <= i < |s| :: !LineTerminator(s[i]) }

  predicate NoDoubleStar(p: string) { forall i | 0 <= i < |p| - 1 :: !(p[i] == '*' && p[i + 1] == '*') }

  // ---- the compiled text denotes the glob ----

  function ItemsOf(p: string): seq<Item> {
    if p == "" then []
    else if p[0] == '*' then
      if |p| > 1 && p[1] == '*' then [Item(Dot, true)] + ItemsOf(p[2..]) else [Item(NotSlash, true)] + ItemsOf(p[1..])
    else [Item(Lit(p[0]), false)] + ItemsOf(p[1..])
  }

  lemma BodyOpening(p: string)
    ensures GlobBody(p) != "" ==> GlobBody(p)[0] != '*'
  {
  }

  /** The text is inside the fragment and splits into exactly the glob's pieces. */
  lemma {:induction false} ReadsBack(p: string)
    ensures ReadItems(GlobBody(p)) == Some(ItemsOf(p))
    decreases |p|
  {
    if p != "" {
      var t := GlobBody(p);
      if p[0] == '*' && |p| > 1 && p[1] == '*' {
        ReadsBack(p[2..]);
        assert t[1..][1..] == GlobBody(p[2..]);
      } else if p[0] == '*' {
        ReadsBack(p[1..]);
        assert t[..4] == "[^/]" && t[4..][1..] == GlobBody(p[1..]) && t[4..][0] == '*';
      } else {
        ReadsBack(p[1..]);
        BodyOpening(p[1..]);
        assert if Escaped(p[0]) then t[2..] == GlobBody(p[1..]) else t[1..] == GlobBody(p[1..]);
      }
    }
  }

  lemma {:induction false} StarRunIs(p: string)
    ensures forall i | 0 <= i < StarRun(p) :: p[i] == '*'
    ensures StarRun(p) < |p| ==> p[StarRun(p)] != '*'
  {
    if p != "" && p[0] == '*' { StarRunIs(p[1..]); }
  }

  lemma SplitAt(s: string, i: nat, j: nat)
    requires i + j <= |s|
    ensures s[i..][j..] == s[i + j..] && s[i..][..j] == s[i..i + j]
  {
  }

  /** A long run takes any prefix, however it is cut into pairs. */
  lemma LongRun(p: string, s: string)
    requires StarRun(p) >= 2
    ensures Denotes(p, s) <==> exists k :: 0 <= k <= |s| && Denotes(p[2..], s[k..])
  {
    hide *;
    var n, rest := StarRun(p), p[2..];
    LongRunIs(p);
    if k :| 0 <= k <= |s| && Denotes(rest, s[k..]) {
      var j := 0;
      if n > 2 { j := TakesSome(rest, s[k..]); }
      SplitAt(s, k, j);
      TakesAny(p, s, k + j);
    }
    if Denotes(p, s) {
      var k := TakesSome(p, s);
      if n > 2 { TakesNone(rest, s[k..]); }
    }
  }

  lemma LongRunIs(p: string)
    requires StarRun(p) >= 2
    ensures |p| >= 2 && StarRun(p[2..]) == StarRun(p) - 2 && p[2..][StarRun(p) - 2..] == p[StarRun(p)..]
    ensures StarRun(p) == 2 ==> p[2..] == p[StarRun(p)..]
  {
    assert p[1..][1..] == p[2..];
  }

  lemma TakesSome(p: string, s: string) returns (k: nat)
    requires StarRun(p) >= 1 && Denotes(p, s)
    ensures k <= |s| && Denotes(p[StarRun(p)..], s[k..])
  {
    k :| 0 <= k <= |s| && Denotes(p[StarRun(p)..], s[k..]);
  }

  lemma TakesAny(p: string, s: string, k: nat)
    requires StarRun(p) >= 2 && k <= |s| && Denotes(p[StarRun(p)..], s[k..])
    ensures Denotes(p, s)
  {
  }

  lemma TakesNone(p: string, s: string)
    requires StarRun(p) >= 1 && Denotes(p[StarRun(p)..], s)
    ensures Denotes(p, s)
  {
    assert s[0..] == s && '/' !in s[..0];
  }

  lemma {:induction false} ItemsDenote(p: string, s: string)
    requires OneLine(s) || NoDoubleStar(p)
    ensures Matches(ItemsOf(p), s) <==> Denotes(p, s)
    decreases |p|
  {
    if p == "" {
    } else if p[0] != '*' {
      assert ItemsOf(p)[1..] == ItemsOf(p[1..]);
      if s != "" { ItemsDenote(p[1..], s[1..]); }
    } else if |p| > 1 && p[1] == '*' {
      assert StarRun(p[1..]) >= 1;
      LongRun(p, s);
      assert ItemsOf(p)[1..] == ItemsOf(p[2..]);
      forall k | 0 <= k <= |s| ensures Matches(ItemsOf(p[2..]), s[k..]) <==> Denotes(p[2..], s[k..]) {
        ItemsDenote(p[2..], s[k..]);
      }
    } else {
      assert StarRun(p[1..]) == 0 && StarRun(p) == 1;
      assert ItemsOf(p)[1..] == ItemsOf(p[1..]);
      forall k | 0 <= k <= |s| ensures Matches(ItemsOf(p[1..]), s[k..]) <==> Denotes(p[1..], s[k..]) {
        ItemsDenote(p[1..], s[k..]);
      }
      assert forall k | 0 <= k <= |s| :: AllMatch(NotSlash, s[..k]) <==> '/' !in s[..k];
    }
  }

  lemma AcceptsIsMatches(p: string, s: string)
    ensures Accepts("^" + GlobBody(p) + "$", s) <==> Matches(ItemsOf(p), s)
  {
    var text := "^" + GlobBody(p) + "$";
    assert text[1..|text| - 1] == GlobBody(p);
    ReadsBack(p);
  }

  /** For every pattern, and every resource on one line (or any resource, when the pattern has no `**`),
      the compiled expression accepts exactly what the glob denotes. */
  lemma CompiledGlobDenotes(p: string, s: string)
    requires OneLine(s) || NoDoubleStar(p)
    ensures Accepts("^" + GlobBody(p) + "$", s) <==> Denotes(p, s)
  {
    AcceptsIsMatches(p, s);
    ItemsDenote(p, s);
  }

  lemma {:induction false} MatchedIsDenoted(p: string, s: string)
    requires Matches(ItemsOf(p), s)
    ensures Denotes(p, s)
    decreases |p|
  {
    if p == "" {
    } else if p[0] != '*' {
      assert ItemsOf(p)[1..] == ItemsOf(p[1..]);
      MatchedIsDenoted(p[1..], s[1..]);
    } else if |p| > 1 && p[1] == '*' {
      assert StarRun(p[1..]) >= 1;
      assert ItemsOf(p)[1..] == ItemsOf(p[2..]);
      var k :| 0 <= k <= |s| && AllMatch(Dot, s[..k]) && Matches(ItemsOf(p[2..]), s[k..]);
      MatchedIsDenoted(p[2..], s[k..]);
      LongRun(p, s);
    } else {
      assert StarRun(p[1..]) == 0 && StarRun(p) == 1;
      assert ItemsOf(p)[1..] == ItemsOf(p[1..]);
      var k :| 0 <= k <= |s| && AllMatch(NotSlash, s[..k]) && Matches(ItemsOf(p[1..]), s[k..]);
      assert forall i | 0 <= i < k :: s[..k][i] != '/';
      MatchedIsDenoted(p[1..], s[k..]);
    }
  }

  /** Whatever the resource, nothing is accepted that the glob does not denote. */
  lemma AcceptedIsDenoted(p: string, s: string)
    requires Accepts("^" + GlobBody(p) + "$", s)
    ensures Denotes(p, s)
  {
    AcceptsIsMatches(p, s);
    MatchedIsDenoted(p, s);
  }

  /** The pattern every remembered grant carries: meant for any resource, it covers those on one line only,
      since `.` never matches a line terminator. */
  lemma WholeToolGrantCoversOneLine(s: string)
    ensures Denotes("**", s)
    ensures Accepts("^" + GlobBody("**") + "$", s) <==> OneLine(s)
  {
    hide *;
    AcceptsIsMatches("**", s);
    DoubleStar();
    DenotesAnything(s);
    MatchesOneLine(s);
  }

  lemma DoubleStar()
    ensures ItemsOf("**") == [Item(Dot, true)] && StarRun("**") == 2
  {
    assert "**"[2..] == "" && ItemsOf("") == [];
    assert "**"[1..] == "*" && "*"[1..] == "";
    assert StarRun("*") == 1 + StarRun("");
  }

  lemma DenotesAnything(s: string)
    ensures Denotes("**", s)
  {
    DoubleStar();
    hide StarRun;
    assert "**"[2..] == "" && s[|s|..] == "" && Denotes("", s[|s|..]);
  }

  lemma MatchesOneLine(s: string)
    ensures Matches([Item(Dot, true)], s) <==> OneLine(s)
  {
    var items := [Item(Dot, true)];
    assert items[1..] == [] && s[..|s|] == s && s[|s|..] == "";
    if OneLine(s) { assert AllMatch(Dot, s[..|s|]) && Matches([], s[|s|..]); }
  }
}
