/** Bounded checkpoints: packing a transcript delta into chunks, and merging their summaries. */
module Checkpoint {
  import opened Options
  import opened Decimals
  import opened Messages
  import opened Pairing
  import opened Sequences

  /** The longest string of ECMA-262, section 6.1.4. */
  const MAX_STRING: nat := 0x1F_FFFF_FFFF_FFFF

  /** Stands for the first sixteen hex digits of the text's SHA-256; only its length matters here. */
  function Fingerprint(text: string): (s: string)
    ensures |s| == 16
  {
    (text + "0000000000000000")[..16]
  }

  /** A text cut at `maxChars`, the rest replaced by its length and identity. */
  function BoundText(text: string, maxChars: nat): string {
    if |text| <= maxChars then text
    else text[..maxChars] + "\n\U{2026}[bounded: " + Decimal(|text|) + " chars, sha256:" + Fingerprint(text) + "]"
  }

  lemma BoundTextLength(text: string, maxChars: nat)
    requires |text| <= MAX_STRING
    ensures |BoundText(text, maxChars)| <= maxChars + 60
    ensures text != "" && maxChars > 0 ==> BoundText(text, maxChars) != ""
  {
    assert Pow10(16) == 1_0000_0000_0000_0000 by {
      assert Pow10(4) == 1_0000;
      assert Pow10(8) == 1_0000 * Pow10(4);
      assert Pow10(12) == 1_0000 * Pow10(8);
      assert Pow10(16) == 1_0000 * Pow10(12);
    }
    DecimalLength(|text|, 16);
  }

  /** A text kept word for word if it is within `maxChars`, and else by exactly its first `maxChars` characters, its length,
      and sixteen characters of identity. */
  ghost predicate KeptText(kept: string, text: string, maxChars: nat) {
    && (|text| <= maxChars ==> kept == text)
    && (|text| > maxChars ==> exists id: string ::
          |id| == 16 && kept == text[..maxChars] + "\n\U{2026}[bounded: " + Decimal(|text|) + " chars, sha256:" + id + "]")
  }

  lemma BoundKeeps(text: string, maxChars: nat)
    ensures KeptText(BoundText(text, maxChars), text, maxChars)
  {
    assert |Fingerprint(text)| == 16;
    hide Fingerprint;
  }

  /** The text is in the chunk, whole and at one place. */
  ghost predicate LiesIn(text: string, chunk: string) { exists a: string, b: string :: chunk == a + text + b }

  ghost predicate WholeInOne(text: string, chunks: seq<string>) { exists k :: 0 <= k < |chunks| && LiesIn(text, chunks[k]) }

  // ---- packing ----

  function JoinLines(lines: seq<string>): string {
    if lines == [] then ""
    else if |lines| == 1 then lines[0]
    else JoinLines(lines[..|lines| - 1]) + "\n" + lines[|lines| - 1]
  }

  /** The size of a chunk, whatever its text. */
  function JoinedSize(lines: seq<string>): nat {
    if lines == [] then 0
    else JoinedSize(lines[..|lines| - 1]) + |lines[|lines| - 1]| + if |lines| == 1 then 0 else 1
  }

  lemma {:induction false} JoinedSizeIs(lines: seq<string>)
    ensures |JoinLines(lines)| == JoinedSize(lines)
  {
    if |lines| == 1 {
      assert JoinedSize(lines[..0]) == 0;
    } else if |lines| > 1 {
      JoinedSizeIs(lines[..|lines| - 1]);
    }
  }

  /** A group inside another is no larger. */
  lemma {:induction false} JoinedSizeGrows(before: seq<string>, g: seq<string>, after: seq<string>)
    ensures JoinedSize(g) <= JoinedSize(before + g + after)
    decreases |before| + |g| + |after|
  {
    var all := before + g + after;
    if after != [] {
      assert all[..|all| - 1] == before + g + after[..|after| - 1];
      JoinedSizeGrows(before, g, after[..|after| - 1]);
    } else if g != [] {
      assert all[..|all| - 1] == before + g[..|g| - 1] + [];
      JoinedSizeGrows(before, g[..|g| - 1], []);
    }
  }

  predicate FitsBudget(size: nat, budget: int) { CharTokens(size) <= budget }

  function Flat(groups: seq<seq<string>>): seq<string> {
    if groups == [] then [] else groups[0] + Flat(groups[1..])
  }

  function Texts(groups: seq<seq<string>>): (texts: seq<string>)
    ensures |texts| == |groups|
  {
    if groups == [] then [] else Texts(groups[..|groups| - 1]) + [JoinLines(groups[|groups| - 1])]
  }

  lemma {:induction false} FlatSnoc(groups: seq<seq<string>>, g: seq<string>)
    ensures Flat(groups + [g]) == Flat(groups) + g
  {
    if groups == [] {
      assert [] + [g] == [g] && [g][1..] == [];
    } else {
      assert (groups + [g])[1..] == groups[1..] + [g];
      FlatSnoc(groups[1..], g);
    }
  }

  /** A group is never empty, and within budget unless it is a single line. */
  predicate GroupOk(g: seq<string>, budget: int) { g != [] && (|g| > 1 ==> FitsBudget(JoinedSize(g), budget)) }

  /** The group had no room for the line that opens the next. */
  predicate NoRoom(g: seq<string>, next: seq<string>, budget: int) {
    next != [] ==> !FitsBudget(JoinedSize(g + [next[0]]), budget)
  }

  predicate Within(groups: seq<seq<string>>, budget: int) { forall g | g in groups :: GroupOk(g, budget) }

  predicate Full(groups: seq<seq<string>>, budget: int) {
    |groups| > 1 ==> NoRoom(groups[0], groups[1], budget) && Full(groups[1..], budget)
  }

  lemma {:induction false} FullSnoc(groups: seq<seq<string>>, g: seq<string>, h: seq<string>, budget: int)
    ensures Full(groups + [g] + [h], budget) <==> Full(groups + [g], budget) && NoRoom(g, h, budget)
  {
    var all := groups + [g] + [h];
    if groups == [] {
      assert all == [g, h] && all[1..] == [h] && [] + [g] == [g];
    } else {
      assert all[1..] == groups[1..] + [g] + [h] && (groups + [g])[1..] == groups[1..] + [g];
      FullSnoc(groups[1..], g, h, budget);
      assert all[1] == (groups + [g])[1];
    }
  }

  /** Growing the last group in place keeps its first line. */
  lemma {:induction false} FullGrow(groups: seq<seq<string>>, g: seq<string>, line: string, budget: int)
    requires g != []
    ensures Full(groups + [g], budget) <==> Full(groups + [g + [line]], budget)
  {
    if groups != [] {
      var init, p := groups[..|groups| - 1], groups[|groups| - 1];
      assert groups == init + [p];
      FullSnoc(init, p, g, budget);
      FullSnoc(init, p, g + [line], budget);
    }
  }

  /** Mid-way: the closed groups, and the open one whose text is `current`. */
  ghost predicate Packing(lines: seq<string>, budget: int, chunks: seq<string>, current: string,
                          groups: seq<seq<string>>, open: seq<string>) {
    && Flat(groups) + open == NonEmpty(lines)
    && chunks == Texts(groups) && current == JoinLines(open) && (current == "" <==> open == [])
    && Within(groups, budget) && (open != [] ==> GroupOk(open, budget))
    && if open == [] then groups == [] else Full(groups + [open], budget)
  }

  lemma SkipLine(lines: seq<string>, budget: int, chunks: seq<string>, current: string, groups: seq<seq<string>>,
      open: seq<string>)
    requires Packing(lines, budget, chunks, current, groups, open)
    ensures Packing(lines + [""], budget, chunks, current, groups, open)
  {
    assert (lines + [""])[..|lines|] == lines && NonEmpty(lines) + [] == NonEmpty(lines);
  }

  lemma ExtendGroup(lines: seq<string>, budget: int, chunks: seq<string>, current: string, groups: seq<seq<string>>,
                    open: seq<string>, line: string)
    requires Packing(lines, budget, chunks, current, groups, open) && line != ""
    requires current == "" || FitsBudget(|current + "\n" + line|, budget)
    ensures Packing(lines + [line], budget, chunks, if current == "" then line else current + "\n" + line, groups, open + [line])
  {
    assert (lines + [line])[..|lines|] == lines;
    assert Flat(groups) + (open + [line]) == (Flat(groups) + open) + [line];
    OneMoreLine(open, line);
    if open != [] { FullGrow(groups, open, line, budget); }
  }

  lemma CloseGroup(lines: seq<string>, budget: int, chunks: seq<string>, current: string, groups: seq<seq<string>>,
                   open: seq<string>, line: string)
    requires Packing(lines, budget, chunks, current, groups, open) && line != ""
    requires current != "" && !FitsBudget(|current + "\n" + line|, budget)
    ensures Packing(lines + [line], budget, chunks + [current], line, groups + [open], [line])
  {
    assert (lines + [line])[..|lines|] == lines;
    assert (groups + [open])[..|groups|] == groups;
    FlatSnoc(groups, open);
    OneMoreLine(open, line);
    FullSnoc(groups, open, [line], budget);
  }

  lemma {:induction false} JoinAppend(a: seq<string>, b: seq<string>)
    requires a != [] && b != []
    ensures JoinLines(a + b) == JoinLines(a) + "\n" + JoinLines(b)
  {
    var n := |b| - 1;
    assert (a + b)[..|a| + n] == a + b[..n];
    if n > 0 {
      JoinAppend(a, b[..n]);
      AssociatesTwice(JoinLines(a), "\n", JoinLines(b[..n]), "\n" + b[n]);
    }
  }

  lemma AssociatesTwice(a: string, b: string, c: string, d: string)
    ensures (a + b + c) + d == a + b + (c + d)
  {
  }

  /** Laid end to end, the chunks read as the lines. */
  lemma {:induction false} TextsJoin(groups: seq<seq<string>>, budget: int)
    requires Within(groups, budget)
    ensures JoinLines(Texts(groups)) == JoinLines(Flat(groups))
  {
    if groups != [] {
      var n := |groups| - 1;
      var init, g := groups[..n], groups[n];
      assert groups == init + [g] && GroupOk(g, budget);
      FlatSnoc(init, g);
      TextsJoin(init, budget);
      FewerGroupsThanLines(init, budget);
      var texts, flat := Texts(init), Flat(init);
      assert Texts(groups) == texts + [JoinLines(g)];
      assert JoinLines([JoinLines(g)]) == JoinLines(g);
      hide *;
      if init == [] {
        assert texts + [JoinLines(g)] == [JoinLines(g)] && flat + g == g;
      } else {
        JoinAppend(texts, [JoinLines(g)]);
        JoinAppend(flat, g);
      }
    }
  }

  /** The greedy packing of the non-empty lines: order, budgets and fullness. */
  predicate IsPacking(groups: seq<seq<string>>, lines: seq<string>, budget: int) {
    Flat(groups) == NonEmpty(lines) && Within(groups, budget) && Full(groups, budget)
  }

  ghost predicate Packs(lines: seq<string>, budget: int, chunks: seq<string>) {
    exists groups :: IsPacking(groups, lines, budget) && chunks == Texts(groups)
  }

  method PackLines(lines: seq<string>, budget: int) returns (chunks: seq<string>, ghost groups: seq<seq<string>>)
    ensures Flat(groups) == NonEmpty(lines) && chunks == Texts(groups)
    ensures Within(groups, budget) && Full(groups, budget) && Packs(lines, budget, chunks)
    ensures |chunks| <= |lines| && (chunks == [] <==> NonEmpty(lines) == [])
    ensures JoinLines(chunks) == JoinLines(NonEmpty(lines))
  {
    chunks, groups := [], [];
    var current := "";
    ghost var open: seq<string> := [];
    var k := 0;
    assert lines[..0] == [];
    assert Packing([], budget, chunks, current, groups, open);
    hide Packing, FitsBudget, Packs;
    while k < |lines|
      invariant 0 <= k <= |lines| && Packing(lines[..k], budget, chunks, current, groups, open)
    {
      var line := lines[k];
      assert lines[..k + 1] == lines[..k] + [line];
      if line == "" {
        SkipLine(lines[..k], budget, chunks, current, groups, open);
      } else {
        var candidate := if current == "" then line else current + "\n" + line;
        if current != "" && !FitsBudget(|candidate|, budget) {
          CloseGroup(lines[..k], budget, chunks, current, groups, open, line);
          groups, chunks := groups + [open], chunks + [current];
          open, current := [line], line;
        } else {
          ExtendGroup(lines[..k], budget, chunks, current, groups, open, line);
          open, current := open + [line], candidate;
        }
      }
      k := k + 1;
    }
    assert lines[..|lines|] == lines;
    LastGroup(lines, budget, chunks, current, groups, open);
    if current != "" { groups, chunks := groups + [open], chunks + [current]; }
    FewerGroupsThanLines(groups, budget);
    TextsJoin(groups, budget);
    IsPacked(lines, budget, groups);
  }

  lemma {:induction false} LineLiesIn(group: seq<string>, i: nat)
    requires i < |group|
    ensures LiesIn(group[i], JoinLines(group))
  {
    var n := |group| - 1;
    if n == 0 {
      assert JoinLines(group) == "" + group[0] + "";
    } else if i == n {
      assert JoinLines(group) == (JoinLines(group[..n]) + "\n") + group[n] + "";
    } else {
      LineLiesIn(group[..n], i);
      var a: string, b: string :| JoinLines(group[..n]) == a + group[i] + b;
      assert JoinLines(group) == a + group[i] + (b + "\n" + group[n]);
    }
  }

  /** Every line lies whole inside one chunk. */
  lemma {:induction false} LinesAreWhole(groups: seq<seq<string>>, line: string)
    requires line in Flat(groups)
    ensures WholeInOne(line, Texts(groups))
  {
    var n := |groups| - 1;
    var init := groups[..n];
    assert groups == init + [groups[n]];
    FlatSnoc(init, groups[n]);
    assert Texts(groups) == Texts(init) + [JoinLines(groups[n])];
    hide LiesIn, Texts, Flat, JoinLines;
    if line in groups[n] {
      var i :| 0 <= i < |groups[n]| && groups[n][i] == line;
      LineLiesIn(groups[n], i);
      assert LiesIn(line, Texts(groups)[n]);
    } else {
      LinesAreWhole(init, line);
      var k :| 0 <= k < |Texts(init)| && LiesIn(line, Texts(init)[k]);
      assert LiesIn(line, Texts(groups)[k]);
    }
  }

  lemma IsPacked(lines: seq<string>, budget: int, groups: seq<seq<string>>)
    requires Flat(groups) == NonEmpty(lines) && Within(groups, budget) && Full(groups, budget)
    ensures Packs(lines, budget, Texts(groups))
  {
    assert IsPacking(groups, lines, budget);
    hide Flat, Within, Full, Texts;
  }

  lemma LastGroup(lines: seq<string>, budget: int, chunks: seq<string>, current: string, groups: seq<seq<string>>,
      open: seq<string>)
    requires Packing(lines, budget, chunks, current, groups, open)
    ensures var all := if current == "" then groups else groups + [open];
      && Flat(all) == NonEmpty(lines) && (if current == "" then chunks else chunks + [current]) == Texts(all)
      && Within(all, budget) && Full(all, budget)
  {
    FlatSnoc(groups, open);
    assert (groups + [open])[..|groups|] == groups && Flat(groups) + [] == Flat(groups);
  }

  lemma OneMoreLine(open: seq<string>, line: string)
    requires line != ""
    ensures JoinLines(open + [line]) == (if open == [] then line else JoinLines(open) + "\n" + line)
    ensures |JoinLines(open + [line])| == JoinedSize(open + [line])
    ensures JoinLines(open + [line]) != "" && JoinLines([line]) == line
  {
    assert (open + [line])[..|open|] == open;
    JoinedSizeIs(open + [line]);
  }

  lemma {:induction false} FewerGroupsThanLines(groups: seq<seq<string>>, budget: int)
    requires Within(groups, budget)
    ensures |groups| <= |Flat(groups)| && (groups == [] <==> Flat(groups) == [])
  {
    if groups != [] {
      assert GroupOk(groups[0], budget);
      FewerGroupsThanLines(groups[1..], budget);
    }
  }

  lemma SplitEqual<T>(a: seq<T>, b: seq<T>, c: seq<T>, d: seq<T>)
    requires a + b == c + d && |a| <= |c|
    ensures c == a + c[|a|..] && b == c[|a|..] + d
  {
    assert (a + b)[..|a|] == a && (c + d)[..|a|] == c[..|a|];
    assert (a + b)[|a|..] == b && (c + d)[|a|..] == c[|a|..] + d;
  }

  /** No packing of the same lines within the same budget uses fewer chunks: a greedy packing never falls
      behind, even against a packing that has `ahead` left to pack before it. */
  lemma {:induction false} GreedyIsFewest(greedy: seq<seq<string>>, other: seq<seq<string>>, ahead: seq<string>, budget: int)
    requires Within(greedy, budget) && Full(greedy, budget) && Within(other, budget)
    requires Flat(other) == ahead + Flat(greedy)
    ensures |greedy| <= |other|
    decreases |greedy|
  {
    if greedy != [] {
      var g := greedy[0];
      assert GroupOk(g, budget) && other != [];
      if |greedy| > 1 {
        var o, h := other[0], greedy[1];
        assert GroupOk(o, budget) && GroupOk(h, budget);
        var rest := ahead + g;
        assert o + Flat(other[1..]) == rest + Flat(greedy[1..]);
        if |o| <= |rest| {
          SplitEqual(o, Flat(other[1..]), rest, Flat(greedy[1..]));
          GreedyIsFewest(greedy[1..], other[1..], rest[|o|..], budget);
        } else {
          OverfullGroup(ahead, g, h, o, Flat(greedy[1..]), Flat(other[1..]), budget);
        }
      }
    }
  }

  lemma OverfullGroup(ahead: seq<string>, g: seq<string>, h: seq<string>, o: seq<string>,
                      left: seq<string>, left': seq<string>, budget: int)
    requires g != [] && h != [] && h <= left && |o| > |ahead + g| && o + left' == ahead + g + left
    requires NoRoom(g, h, budget)
    ensures !GroupOk(o, budget)
  {
    var n := |ahead + g|;
    SplitEqual(ahead + g, left, o, left');
    assert o[n] == o[n..][0] == left[0] == h[0];
    assert o == ahead + (g + [h[0]]) + o[n + 1..];
    JoinedSizeGrows(ahead, g + [h[0]], o[n + 1..]);
  }

  lemma FirstGroup(groups: seq<seq<string>>)
    requires groups != []
    ensures Flat(groups) == groups[0] + Flat(groups[1..])
    ensures groups[1..] == [] ==> Flat(groups) == groups[0]
    ensures groups == [groups[0]] + groups[1..]
  {
  }

  /** There is one greedy packing. */
  lemma {:induction false} PackingIsUnique(a: seq<seq<string>>, b: seq<seq<string>>, budget: int)
    requires Within(a, budget) && Full(a, budget) && Within(b, budget) && Full(b, budget) && Flat(a) == Flat(b)
    ensures a == b
    decreases |a|
  {
    hide *;
    FewerGroupsThanLines(a, budget);
    FewerGroupsThanLines(b, budget);
    if a != [] {
      FirstGroup(a);
      FirstGroup(b);
      FirstGroupNotLonger(a, b, budget);
      FirstGroupNotLonger(b, a, budget);
      SplitEqual(a[0], Flat(a[1..]), b[0], Flat(b[1..]));
      FullTail(a, budget);
      FullTail(b, budget);
      assert b[0][|a[0]|..] == [] && a[0] + [] == a[0] && [] + Flat(b[1..]) == Flat(b[1..]);
      PackingIsUnique(a[1..], b[1..], budget);
    }
  }

  lemma FullTail(groups: seq<seq<string>>, budget: int)
    requires groups != [] && Within(groups, budget) && Full(groups, budget)
    ensures Within(groups[1..], budget) && Full(groups[1..], budget) && GroupOk(groups[0], budget) && groups[0] != []
    ensures |groups| > 1 ==> NoRoom(groups[0], groups[1], budget)
  {
    assert groups[0] in groups;
    assert GroupOk(groups[0], budget) ==> groups[0] != [];
    hide GroupOk, NoRoom;
  }

  lemma FirstGroupNotLonger(a: seq<seq<string>>, b: seq<seq<string>>, budget: int)
    requires a != [] && b != [] && Flat(a) == Flat(b)
    requires Within(a, budget) && Full(a, budget) && Within(b, budget) && Full(b, budget)
    ensures |b[0]| <= |a[0]|
  {
    hide *;
    FirstGroup(a);
    FirstGroup(b);
    FullTail(a, budget);
    FullTail(b, budget);
    if |b[0]| > |a[0]| && |a| > 1 {
      FullTail(a[1..], budget);
      FirstGroup(a[1..]);
      assert [] + a[0] == a[0];
      OverfullGroup([], a[0], a[1], b[0], Flat(a[1..]), Flat(b[1..]), budget);
    }
  }

  lemma PacksOnce(lines: seq<string>, budget: int, a: seq<string>, b: seq<string>)
    requires Packs(lines, budget, a) && Packs(lines, budget, b)
    ensures a == b
  {
    hide Flat, Texts, Full, Within;
    var g :| IsPacking(g, lines, budget) && a == Texts(g);
    var h :| IsPacking(h, lines, budget) && b == Texts(h);
    PackingIsUnique(g, h, budget);
  }

  lemma PacksFewer(lines: seq<string>, budget: int, chunks: seq<string>)
    requires Packs(lines, budget, chunks)
    ensures |chunks| <= |lines| && (chunks == [] <==> NonEmpty(lines) == [])
  {
    hide Flat, Full, Within;
    var g :| IsPacking(g, lines, budget) && chunks == Texts(g);
    FewerGroupsThanLines(g, budget);
  }

  // ---- planning ----

  const CHECKPOINT_MESSAGE_CHARS: nat := 2000
  const CHECKPOINT_MERGE_MAX_DEPTH := 4

  function RoleTag(m: Message): string {
    match m case User(_) => "[user] " case Assistant(_, _) => "[assistant] " case Tool(_, _) => "[tool] "
  }

  function PerMessageChars(budget: nat): nat {
    var half := if CHECKPOINT_MESSAGE_CHARS < budget * 2 then CHECKPOINT_MESSAGE_CHARS else budget * 2;
    if half < 128 then 128 else half
  }

  function Rendered(messages: seq<Message>, chars: nat): (lines: seq<string>)
    ensures |lines| == |messages|
  {
    if messages == [] then []
    else
      var n := |messages| - 1;
      Rendered(messages[..n], chars) + [RoleTag(messages[n]) + BoundText(messages[n].content, chars)]
  }

  /** The line of a message: its role, and its content kept. */
  ghost predicate LineOf(line: string, m: Message, maxChars: nat) {
    var role := match m case User(_) => "[user] " case Assistant(_, _) => "[assistant] " case Tool(_, _) => "[tool] ";
    role <= line && KeptText(line[|role|..], m.content, maxChars)
  }

  ghost predicate LinesOf(lines: seq<string>, messages: seq<Message>, maxChars: nat) {
    |lines| == |messages| && forall i | 0 <= i < |lines| :: LineOf(lines[i], messages[i], maxChars)
  }

  lemma OneLineRendered(m: Message, chars: nat)
    ensures LineOf(RoleTag(m) + BoundText(m.content, chars), m, chars) && RoleTag(m) + BoundText(m.content, chars) != ""
  {
    var tag, kept := RoleTag(m), BoundText(m.content, chars);
    assert (tag + kept)[|tag|..] == kept && tag <= tag + kept;
    BoundKeeps(m.content, chars);
    hide BoundText, KeptText;
  }

  lemma {:induction false} RenderedLines(messages: seq<Message>, chars: nat)
    ensures LinesOf(Rendered(messages, chars), messages, chars)
    ensures NonEmpty(Rendered(messages, chars)) == Rendered(messages, chars)
  {
    hide *;
    RenderedLast(messages, chars);
    if messages == [] {
      NonEmptyLast([]);
      NoLines(chars);
    } else {
      var n := |messages| - 1;
      var last := RoleTag(messages[n]) + BoundText(messages[n].content, chars);
      RenderedLines(messages[..n], chars);
      OneLineRendered(messages[n], chars);
      OneMoreLineOf(Rendered(messages[..n], chars), last, messages, chars);
      NonEmptySnoc(Rendered(messages[..n], chars), last);
    }
  }

  lemma NoLines(chars: nat)
    ensures LinesOf([], [], chars)
  {
  }

  lemma RenderedLast(messages: seq<Message>, chars: nat)
    ensures messages == [] ==> Rendered(messages, chars) == []
    ensures messages != [] ==> var n := |messages| - 1;
      Rendered(messages, chars) == Rendered(messages[..n], chars) + [RoleTag(messages[n]) + BoundText(messages[n].content, chars)]
  {
    hide RoleTag, BoundText;
  }

  lemma OneMoreLineOf(lines: seq<string>, line: string, messages: seq<Message>, chars: nat)
    requires messages != [] && LinesOf(lines, messages[..|messages| - 1], chars) && LineOf(line, messages[|messages| - 1], chars)
    ensures LinesOf(lines + [line], messages, chars)
  {
    hide LineOf;
    var n := |messages| - 1;
    forall i | 0 <= i <= n ensures LineOf((lines + [line])[i], messages[i], chars) {
      if i < n { assert LineOf(lines[i], messages[..n][i], chars); }
    }
  }

  lemma NonEmptySnoc(lines: seq<string>, line: string)
    requires NonEmpty(lines) == lines && line != ""
    ensures NonEmpty(lines + [line]) == lines + [line]
  {
    hide *;
    NonEmptyLast(lines + [line]);
    assert (lines + [line])[..|lines|] == lines;
  }

  predicate EachFits(texts: seq<string>, budget: int) { forall t | t in texts :: FitsBudget(|t|, budget) }

  lemma {:induction false} RenderedFits(messages: seq<Message>, budget: nat)
    requires budget >= 512 && forall m | m in messages :: |m.content| <= MAX_STRING
    ensures EachFits(Rendered(messages, PerMessageChars(budget)), budget)
    ensures NonEmpty(Rendered(messages, PerMessageChars(budget))) == Rendered(messages, PerMessageChars(budget))
  {
    if messages != [] {
      var n, chars := |messages| - 1, PerMessageChars(budget);
      RenderedFits(messages[..n], budget);
      BoundTextLength(messages[n].content, chars);
      hide BoundText;
      assert Rendered(messages, chars)[..n] == Rendered(messages[..n], chars);
    }
  }

  lemma {:induction false} NonEmptyFits(lines: seq<string>, budget: int)
    requires EachFits(lines, budget)
    ensures EachFits(NonEmpty(lines), budget)
  {
    if lines != [] { NonEmptyFits(lines[..|lines| - 1], budget); }
  }

  /** Lines that fit one by one pack into chunks that all fit. */
  lemma {:induction false} ChunksFit(groups: seq<seq<string>>, budget: int)
    requires Within(groups, budget) && EachFits(Flat(groups), budget)
    ensures EachFits(Texts(groups), budget)
  {
    if groups != [] {
      var n := |groups| - 1;
      var init, g := groups[..n], groups[n];
      assert groups == init + [g];
      FlatSnoc(init, g);
      assert GroupOk(g, budget);
      JoinedSizeIs(g);
      if |g| == 1 { assert g[0] in Flat(groups) && JoinLines(g) == g[0]; }
      assert forall t | t in Flat(init) :: t in Flat(groups);
      ChunksFit(init, budget);
    }
  }

  method PlanCheckpointDelta(messages: seq<Message>, budget: nat) returns (chunks: seq<string>, ghost groups: seq<seq<string>>)
    requires forall m | m in messages :: |m.content| <= MAX_STRING
    ensures chunks == Texts(groups) && Flat(groups) == NonEmpty(Rendered(messages, PerMessageChars(budget)))
    ensures budget >= 512 ==> Flat(groups) == Rendered(messages, PerMessageChars(budget))
    ensures budget >= 512 ==> EachFits(chunks, budget)
    ensures JoinLines(chunks) == JoinLines(NonEmpty(Rendered(messages, PerMessageChars(budget))))
    ensures Within(groups, budget) && Full(groups, budget)
    ensures LinesOf(Flat(groups), messages, if budget <= 64 then 128 else if budget >= 1000 then 2000 else 2 * budget)
    ensures JoinLines(chunks) == JoinLines(Flat(groups)) && forall line | line in Flat(groups) :: WholeInOne(line, chunks)
  {
    RenderedLines(messages, PerMessageChars(budget));
    forall line: string, groups': seq<seq<string>> | line in Flat(groups') ensures WholeInOne(line, Texts(groups')) {
      LinesAreWhole(groups', line);
    }
    hide LinesOf, WholeInOne, LineOf;
    chunks, groups := PackLines(Rendered(messages, PerMessageChars(budget)), budget);
    if budget >= 512 {
      RenderedFits(messages, budget);
      ChunksFit(groups, budget);
    }
  }

  // ---- chunk, summarize, merge ----

  datatype Summary = Summarized(text: string) | MergedToNothing | TooDeep | ProviderThrew

  /** The provider's n-th answer; None is a throw. */
  function ReplyAt(replies: seq<Option<string>>, n: nat): Option<string> { if n < |replies| then replies[n] else None }

  function NoActivity(): string { "(no new activity since the previous checkpoint)" }

  /** What one checkpoint call sends: the previous checkpoint, if there is one, and the delta. */
  function CheckpointRequest(previous: Option<string>, delta: string): seq<Message> {
    (if previous.Some? then [User("[previous-checkpoint]\n" + previous.value)] else []) + [User("[transcript-delta]\n" + delta)]
  }

  lemma CheckpointRequestIsPairingComplete(previous: Option<string>, delta: string)
    ensures PairingComplete(CheckpointRequest(previous, delta))
    ensures CheckpointRequest(previous, delta) ==
      if previous.None? then [User("[transcript-delta]\n" + delta)]
      else [User("[previous-checkpoint]\n" + previous.value), User("[transcript-delta]\n" + delta)]
  {
  }

  method SummarizeChunk(delta: string, replies: seq<Option<string>>, sent0: seq<string>) returns (reply: Option<string>, sent: seq<string>)
    ensures sent == sent0 + [delta] && reply == ReplyAt(replies, |sent0|)
  {
    sent := sent0 + [delta];
    reply := ReplyAt(replies, |sent0|);
  }

  /** The first few of the chunks have gone out, in order. */
  predicate SentSome(sent0: seq<string>, chunks: seq<string>, sent: seq<string>) {
    |sent0| <= |sent| <= |sent0| + |chunks| && sent == sent0 + chunks[..|sent| - |sent0|]
  }

  /** No call from `n` on, up to `m`, fails. */
  predicate Answered(replies: seq<Option<string>>, n: nat, m: int) { forall i | n <= i < m :: ReplyAt(replies, i).Some? }

  function AnswerChars(budget: nat): nat { if budget * 2 < 128 then 128 else budget * 2 }

  /** The bounded forms of `count` answers from the n-th on. */
  function Partials(replies: seq<Option<string>>, n: nat, count: nat, budget: nat): (texts: seq<string>)
    ensures |texts| == count
  {
    if count == 0 then []
    else
      var reply := ReplyAt(replies, n + count - 1);
      Partials(replies, n, count - 1, budget) + [if reply.Some? then BoundText(reply.value, AnswerChars(budget)) else ""]
  }

  /** These are the answers from the n-th on, each kept. */
  ghost predicate KeptAnswers(lines: seq<string>, replies: seq<Option<string>>, n: nat, maxChars: nat) {
    forall i | 0 <= i < |lines| :: KeptAnswer(lines[i], replies, n + i, maxChars)
  }

  ghost predicate KeptAnswer(line: string, replies: seq<Option<string>>, k: nat, maxChars: nat) {
    k < |replies| && replies[k].Some? && KeptText(line, replies[k].value, maxChars)
  }

  lemma {:induction false} PartialsKeep(replies: seq<Option<string>>, n: nat, count: nat, budget: nat)
    requires Answered(replies, n, n + count)
    ensures KeptAnswers(Partials(replies, n, count, budget), replies, n, if budget <= 64 then 128 else 2 * budget)
  {
    hide BoundText, KeptText, ReplyAt, Answered, KeptAnswers, AnswerChars;
    AnswerCharsAre(budget);
    if count == 0 {
      NothingAnswered(replies, n, budget);
      NoneKept(replies, n, AnswerChars(budget));
    } else {
      StillAnswered(replies, n, count);
      PartialsKeep(replies, n, count - 1, budget);
      OneMoreAnswer(replies, n, count - 1, count, budget);
      BoundKeeps(replies[n + count - 1].value, AnswerChars(budget));
      OneMoreKept(Partials(replies, n, count - 1, budget), BoundText(replies[n + count - 1].value, AnswerChars(budget)), replies, n,
        AnswerChars(budget));
    }
  }

  lemma AnswerCharsAre(budget: nat)
    ensures AnswerChars(budget) == if budget <= 64 then 128 else 2 * budget
  {
  }

  lemma NoneKept(replies: seq<Option<string>>, n: nat, maxChars: nat)
    ensures KeptAnswers([], replies, n, maxChars)
  {
  }

  lemma StillAnswered(replies: seq<Option<string>>, n: nat, count: nat)
    requires count > 0 && Answered(replies, n, n + count)
    ensures Answered(replies, n, n + count - 1)
    ensures n + count - 1 < |replies| && replies[n + count - 1].Some? && ReplyAt(replies, n + count - 1) == replies[n + count - 1]
  {
    assert ReplyAt(replies, n + count - 1).Some?;
  }

  lemma OneMoreKept(lines: seq<string>, line: string, replies: seq<Option<string>>, n: nat, maxChars: nat)
    requires KeptAnswers(lines, replies, n, maxChars) && n + |lines| < |replies| && replies[n + |lines|].Some?
    requires KeptText(line, replies[n + |lines|].value, maxChars)
    ensures KeptAnswers(lines + [line], replies, n, maxChars)
  {
    var all := lines + [line];
    assert KeptAnswer(line, replies, n + |lines|, maxChars);
    hide KeptAnswer;
    forall i | 0 <= i < |all| ensures KeptAnswer(all[i], replies, n + i, maxChars) {
      if i < |lines| { assert all[i] == lines[i]; }
    }
  }

  /** Summarize the chunks in order until one fails; each answer is bounded before it is packed again. */
  method SummarizeAll(chunks: seq<string>, budget: nat, replies: seq<Option<string>>, sent0: seq<string>)
    returns (partials: Option<seq<string>>, sent: seq<string>)
    requires budget >= 512 && EachFits(chunks, budget) && EachFits(sent0, budget)
    requires forall r | r in replies && r.Some? :: |r.value| <= MAX_STRING
    ensures EachFits(sent, budget) && SentSome(sent0, chunks, sent)
    ensures partials.Some? <==> Answered(replies, |sent0|, |sent0| + |chunks|)
    ensures partials.None? ==>
      |sent| > |sent0| && Answered(replies, |sent0|, |sent| - 1) && ReplyAt(replies, |sent| - 1) == None
    ensures partials.Some? ==> sent == sent0 + chunks
    ensures partials.Some? ==> partials.value == Partials(replies, |sent0|, |chunks|, budget) && EachFits(partials.value, budget)
  {
    hide *;
    var texts: seq<string> := [];
    sent := sent0;
    var k := 0;
    assert sent0 + chunks[..0] == sent0;
    NothingAnswered(replies, |sent0|, budget);
    while k < |chunks|
      invariant 0 <= k <= |chunks| && |sent| == |sent0| + k && sent == sent0 + chunks[..k]
      invariant EachFits(sent, budget) && EachFits(texts, budget)
      invariant texts == Partials(replies, |sent0|, k, budget) && Answered(replies, |sent0|, |sent0| + k)
    {
      var reply;
      reply, sent := SummarizeChunk(chunks[k], replies, sent);
      assert sent == sent0 + chunks[..k + 1];
      OneMoreFits(sent[..|sent0| + k], chunks[k], budget) by { ChunkFits(chunks, k, budget); }
      assert sent[..|sent0| + k] + [chunks[k]] == sent;
      OneMoreAnswer(replies, |sent0|, k, |chunks|, budget);
      if reply.None? {
        AreSome(sent0, chunks, sent);
        return None, sent;
      }
      AnswerFits(reply.value, budget) by { ReplyBound(replies, |sent| - 1); }
      OneMoreFits(texts, BoundText(reply.value, AnswerChars(budget)), budget);
      texts := texts + [BoundText(reply.value, AnswerChars(budget))];
      k := k + 1;
    }
    assert chunks[..k] == chunks;
    AreSome(sent0, chunks, sent);
    partials := Some(texts);
  }

  lemma NothingAnswered(replies: seq<Option<string>>, n: nat, budget: nat)
    ensures Partials(replies, n, 0, budget) == [] && Answered(replies, n, n) && EachFits([], budget)
  {
  }

  lemma OneMoreAnswer(replies: seq<Option<string>>, n: nat, k: nat, m: nat, budget: nat)
    requires Answered(replies, n, n + k) && k < m
    ensures var reply := ReplyAt(replies, n + k);
      if reply.Some? then
        && Answered(replies, n, n + k + 1)
        && Partials(replies, n, k + 1, budget) == Partials(replies, n, k, budget) + [BoundText(reply.value, AnswerChars(budget))]
      else !Answered(replies, n, n + m)
  {
    hide BoundText, ReplyAt;
  }

  lemma OneMoreFits(texts: seq<string>, text: string, budget: int)
    requires EachFits(texts, budget) && FitsBudget(|text|, budget)
    ensures EachFits(texts + [text], budget)
  {
    hide FitsBudget;
  }

  lemma ChunkFits(chunks: seq<string>, k: nat, budget: int)
    requires EachFits(chunks, budget) && k < |chunks|
    ensures FitsBudget(|chunks[k]|, budget)
  {
    hide FitsBudget;
    assert chunks[k] in chunks;
  }

  lemma AreSome(sent0: seq<string>, chunks: seq<string>, sent: seq<string>)
    requires |sent0| <= |sent| <= |sent0| + |chunks| && sent == sent0 + chunks[..|sent| - |sent0|]
    ensures SentSome(sent0, chunks, sent)
  {
  }

  lemma ReplyBound(replies: seq<Option<string>>, n: nat)
    requires forall r | r in replies && r.Some? :: |r.value| <= MAX_STRING
    ensures ReplyAt(replies, n).Some? ==> |ReplyAt(replies, n).value| <= MAX_STRING
  {
  }

  lemma AnswerFits(text: string, budget: nat)
    requires budget >= 512 && |text| <= MAX_STRING
    ensures FitsBudget(|BoundText(text, AnswerChars(budget))|, budget)
  {
    BoundTextLength(text, AnswerChars(budget));
  }

  /** One round of merging: every chunk is answered, and the bounded answers are packed again. */
  ghost predicate MergesTo(chunks: seq<string>, budget: nat, replies: seq<Option<string>>, n: nat, next: seq<string>) {
    && |chunks| > 1 && Answered(replies, n, n + |chunks|)
    && Packs(Partials(replies, n, |chunks|, budget), budget, next)
  }

  /** Merging never adds a chunk. */
  method MergeOnce(chunks0: seq<string>, budget: nat, replies: seq<Option<string>>, sent0: seq<string>)
    returns (chunks: Option<seq<string>>, sent: seq<string>, ghost lines: seq<string>)
    requires budget >= 512 && |chunks0| > 1 && EachFits(chunks0, budget) && EachFits(sent0, budget)
    requires forall r | r in replies && r.Some? :: |r.value| <= MAX_STRING
    ensures EachFits(sent, budget) && SentSome(sent0, chunks0, sent)
    ensures chunks.Some? <==> Answered(replies, |sent0|, |sent0| + |chunks0|)
    ensures chunks.None? ==>
      |sent| > |sent0| && Answered(replies, |sent0|, |sent| - 1) && ReplyAt(replies, |sent| - 1) == None
    ensures chunks.Some? ==> sent == sent0 + chunks0 && MergesTo(chunks0, budget, replies, |sent0|, chunks.value)
    ensures chunks.Some? ==> |chunks.value| <= |chunks0| && EachFits(chunks.value, budget)
    ensures chunks.Some? ==> JoinLines(chunks.value) == JoinLines(NonEmpty(Partials(replies, |sent0|, |chunks0|, budget)))
    ensures chunks.Some? ==> |lines| == |chunks0| && KeptAnswers(lines, replies, |sent0|, 2 * budget)
    ensures chunks.Some? ==> JoinLines(chunks.value) == JoinLines(NonEmpty(lines))
    ensures chunks.Some? ==> forall line | line in lines && line != "" :: WholeInOne(line, chunks.value)
  {
    lines := [];
    hide KeptAnswers, WholeInOne, EachFits, BoundText, ReplyAt, Within, Full, Packs, Partials, Flat;
    var partials;
    partials, sent := SummarizeAll(chunks0, budget, replies, sent0);
    if partials.None? { return None, sent, []; }
    lines := partials.value;
    PartialsKeep(replies, |sent0|, |chunks0|, budget);
    ghost var groups;
    var merged;
    merged, groups := PackLines(partials.value, budget);
    NonEmptyFits(partials.value, budget);
    ChunksFit(groups, budget);
    forall line | line in lines && line != "" ensures WholeInOne(line, merged) {
      NonEmptyKeeps(lines, line);
      LinesAreWhole(groups, line);
    }
    chunks := Some(merged);
  }

  /** What the first requests carry. */
  function FirstChunks(chunks: seq<string>): seq<string> { if chunks == [] then [NoActivity()] else chunks }

  // ---- a whole summary ----

  /** The chunks before each round of merging, and those after the last. */
  ghost predicate Merges(first: seq<string>, budget: nat, replies: seq<Option<string>>, stages: seq<seq<string>>) {
    && stages != []
    && if |stages| == 1 then stages[0] == first
       else
         var n := |stages| - 1;
         Merges(first, budget, replies, stages[..n]) && MergesTo(stages[n - 1], budget, replies, |Flat(stages[..n - 1])|, stages[n])
  }

  /** What comes of the chunks left after the merging, `sent` before: nothing is left; more than one is left after the
      last round; or they go out in order up to the first call that fails, and when none does, the one answer is the
      summary. */
  predicate ComesTo(before: seq<string>, last: seq<string>, final: bool, replies: seq<Option<string>>, summary: Summary, sent: seq<string>) {
    if last == [] then summary == MergedToNothing && sent == before
    else if |last| > 1 && final then summary == TooDeep && sent == before
    else
      && SentSome(before, last, sent) && |sent| > |before| && Answered(replies, |before|, |sent| - 1)
      && var reply := ReplyAt(replies, |sent| - 1);
         if reply.None? then summary == ProviderThrew else |last| == 1 && summary == Summarized(reply.value)
  }

  ghost predicate Accounted(first: seq<string>, budget: nat, replies: seq<Option<string>>, stages: seq<seq<string>>,
                            summary: Summary, sent: seq<string>) {
    && Merges(first, budget, replies, stages) && |stages| - 1 <= CHECKPOINT_MERGE_MAX_DEPTH
    && var n := |stages| - 1;
       ComesTo(Flat(stages[..n]), stages[n], n == CHECKPOINT_MERGE_MAX_DEPTH, replies, summary, sent)
  }

  /** For any delta and any answers it ends, each request's delta within budget. */
  method SummarizeBoundedDelta(chunks0: seq<string>, budget: nat, replies: seq<Option<string>>)
    returns (summary: Summary, sent: seq<string>, ghost stages: seq<seq<string>>)
    requires budget >= 512 && EachFits(chunks0, budget)
    requires forall r | r in replies && r.Some? :: |r.value| <= MAX_STRING
    ensures EachFits(sent, budget) && Accounted(FirstChunks(chunks0), budget, replies, stages, summary, sent)
    ensures chunks0 != [] ==> Accounted(chunks0, budget, replies, stages, summary, sent)
    ensures sent != [] && sent[0] == (if chunks0 != [] then chunks0[0] else "(no new activity since the previous checkpoint)")
    ensures 1 <= |sent| <= 4 * |FirstChunks(chunks0)| + 1
  {
    NoActivityFits(budget);
    hide EachFits, Accounted, Merging, ComesTo, Merges, Flat;
    var failed, chunks;
    failed, chunks, sent, stages := MergeToOne(FirstChunks(chunks0), budget, replies);
    if failed.Some? {
      summary := failed.value;
    } else {
      var reply;
      MergingMeans(FirstChunks(chunks0), budget, replies, stages, chunks, sent);
      LastCall(chunks, sent, budget, |stages| - 1 == CHECKPOINT_MERGE_MAX_DEPTH, replies);
      reply, sent := SummarizeChunk(chunks[0], replies, sent);
      summary := if reply.Some? then Summarized(reply.value) else ProviderThrew;
    }
    CallsAreBounded(FirstChunks(chunks0), budget, replies, stages, summary, sent);
    InitialChunksGoOut(FirstChunks(chunks0), budget, replies, stages, summary, sent);
    hide NoActivity;
    assert sent[0] == FirstChunks(chunks0)[0];
  }

  /** Part-way through the merging. */
  ghost predicate Merging(first: seq<string>, budget: nat, replies: seq<Option<string>>, stages: seq<seq<string>>,
                          chunks: seq<string>, sent: seq<string>) {
    && Merges(first, budget, replies, stages) && chunks == stages[|stages| - 1] && sent == Flat(stages[..|stages| - 1])
    && EachFits(chunks, budget) && EachFits(sent, budget)
  }

  /** Merge until one chunk is left. */
  method MergeToOne(chunks0: seq<string>, budget: nat, replies: seq<Option<string>>)
    returns (failed: Option<Summary>, chunks: seq<string>, sent: seq<string>, ghost stages: seq<seq<string>>)
    requires budget >= 512 && chunks0 != [] && EachFits(chunks0, budget)
    requires forall r | r in replies && r.Some? :: |r.value| <= MAX_STRING
    ensures failed.Some? ==> EachFits(sent, budget) && Accounted(chunks0, budget, replies, stages, failed.value, sent)
    ensures failed.None? ==>
      |chunks| == 1 && stages != [] && |stages| - 1 <= CHECKPOINT_MERGE_MAX_DEPTH && Merging(chunks0, budget, replies, stages, chunks, sent)
  {
    assert CHECKPOINT_MERGE_MAX_DEPTH == 4;
    hide *;
    chunks, sent, stages := chunks0, [], [chunks0];
    StartMerging(chunks0, budget, replies);
    var depth := 0;
    while |chunks| > 1
      invariant 0 <= depth == |stages| - 1 <= CHECKPOINT_MERGE_MAX_DEPTH && chunks != []
      invariant Merging(chunks0, budget, replies, stages, chunks, sent)
      decreases CHECKPOINT_MERGE_MAX_DEPTH - depth
    {
      ghost var before, last := sent, chunks;
      MergingMeans(chunks0, budget, replies, stages, chunks, sent);
      if depth >= CHECKPOINT_MERGE_MAX_DEPTH { return Some(TooDeep), chunks, sent, stages; }
      var merged;
      ghost var lines;
      merged, sent, lines := MergeOnce(chunks, budget, replies, sent);
      if merged.None? {
        MergeFails(chunks, before, false, replies, sent);
        return Some(ProviderThrew), chunks, sent, stages;
      }
      MergeGoesOn(chunks0, budget, replies, stages, chunks, before, merged.value, sent);
      chunks, depth, stages := merged.value, depth + 1, stages + [merged.value];
      if chunks == [] {
        MergingMeans(chunks0, budget, replies, stages, chunks, sent);
        return Some(MergedToNothing), chunks, sent, stages;
      }
    }
    return None, chunks, sent, stages;
  }

  lemma StartMerging(first: seq<string>, budget: nat, replies: seq<Option<string>>)
    requires EachFits(first, budget)
    ensures Merging(first, budget, replies, [first], first, [])
  {
    assert [first][..0] == [];
  }

  lemma MergingMeans(first: seq<string>, budget: nat, replies: seq<Option<string>>, stages: seq<seq<string>>,
                     chunks: seq<string>, sent: seq<string>)
    requires Merging(first, budget, replies, stages, chunks, sent)
    ensures EachFits(chunks, budget) && EachFits(sent, budget) && stages != [] && Merges(first, budget, replies, stages)
    ensures chunks == stages[|stages| - 1] && sent == Flat(stages[..|stages| - 1])
    ensures |stages| - 1 <= CHECKPOINT_MERGE_MAX_DEPTH ==>
      forall summary, sent' :: Accounted(first, budget, replies, stages, summary, sent') <==>
        ComesTo(sent, chunks, |stages| - 1 == CHECKPOINT_MERGE_MAX_DEPTH, replies, summary, sent')
    ensures chunks == [] ==> ComesTo(sent, chunks, |stages| - 1 == CHECKPOINT_MERGE_MAX_DEPTH, replies, MergedToNothing, sent)
    ensures |chunks| > 1 ==> ComesTo(sent, chunks, true, replies, TooDeep, sent)
  {
    assert chunks == [] ==> ComesTo(sent, chunks, |stages| - 1 == CHECKPOINT_MERGE_MAX_DEPTH, replies, MergedToNothing, sent);
    assert |chunks| > 1 ==> ComesTo(sent, chunks, true, replies, TooDeep, sent);
    hide EachFits, Flat, MergesTo, ComesTo;
  }

  lemma MergeFails(chunks: seq<string>, sent: seq<string>, final: bool, replies: seq<Option<string>>, sent': seq<string>)
    requires |chunks| > 1 && !final
    requires SentSome(sent, chunks, sent') && |sent'| > |sent| && Answered(replies, |sent|, |sent'| - 1)
    requires ReplyAt(replies, |sent'| - 1) == None
    ensures ComesTo(sent, chunks, final, replies, ProviderThrew, sent')
  {
    hide SentSome, Answered, ReplyAt;
  }

  lemma OneMoreStage(first: seq<string>, budget: nat, replies: seq<Option<string>>, stages: seq<seq<string>>, next: seq<string>)
    requires Merges(first, budget, replies, stages)
    requires MergesTo(stages[|stages| - 1], budget, replies, |Flat(stages[..|stages| - 1])|, next)
    ensures Merges(first, budget, replies, stages + [next])
  {
    SnocSlices(stages, next);
    hide MergesTo, Flat;
  }

  lemma SnocSlices<T>(s: seq<T>, x: T)
    ensures (s + [x])[..|s|] == s
    ensures s != [] ==> (s + [x])[..|s| - 1] == s[..|s| - 1] && (s + [x])[|s| - 1] == s[|s| - 1]
  {
  }

  lemma LastStage(first: seq<string>, budget: nat, replies: seq<Option<string>>, stages: seq<seq<string>>)
    requires Merges(first, budget, replies, stages)
    ensures |stages| == 1 ==> stages[0] == first
    ensures |stages| > 1 ==> var n := |stages| - 1;
      Merges(first, budget, replies, stages[..n]) && MergesTo(stages[n - 1], budget, replies, |Flat(stages[..n - 1])|, stages[n])
  {
    hide MergesTo, Flat;
  }

  lemma SentByStages(stages: seq<seq<string>>, n: nat)
    requires n < |stages|
    ensures Flat(stages[..n + 1]) == Flat(stages[..n]) + stages[n]
    ensures Flat(stages[..0]) == []
  {
    assert stages[..n + 1] == stages[..n] + [stages[n]];
    FlatSnoc(stages[..n], stages[n]);
  }

  lemma MergeGoesOn(first: seq<string>, budget: nat, replies: seq<Option<string>>, stages: seq<seq<string>>,
                    chunks: seq<string>, sent: seq<string>, next: seq<string>, sent': seq<string>)
    requires Merging(first, budget, replies, stages, chunks, sent) && MergesTo(chunks, budget, replies, |sent|, next)
    requires sent' == sent + chunks && EachFits(sent', budget) && EachFits(next, budget)
    ensures Merging(first, budget, replies, stages + [next], next, sent')
  {
    hide *;
    MergingMeans(first, budget, replies, stages, chunks, sent);
    OneMoreStage(first, budget, replies, stages, next);
    SnocSlices(stages, next);
    SentByStages(stages + [next], |stages| - 1);
    IsMerging(first, budget, replies, stages + [next]);
  }

  lemma IsMerging(first: seq<string>, budget: nat, replies: seq<Option<string>>, stages: seq<seq<string>>)
    requires Merges(first, budget, replies, stages) && stages != []
    requires EachFits(stages[|stages| - 1], budget) && EachFits(Flat(stages[..|stages| - 1]), budget)
    ensures Merging(first, budget, replies, stages, stages[|stages| - 1], Flat(stages[..|stages| - 1]))
  {
    hide EachFits, Flat, Merges;
  }

  lemma LastCall(last: seq<string>, before: seq<string>, budget: nat, final: bool, replies: seq<Option<string>>)
    requires |last| == 1 && EachFits(last, budget) && EachFits(before, budget)
    ensures var reply := ReplyAt(replies, |before|);
      && EachFits(before + [last[0]], budget)
      && ComesTo(before, last, final, replies, if reply.Some? then Summarized(reply.value) else ProviderThrew, before + [last[0]])
  {
    assert last[..1] == [last[0]] && last[0] in last;
    hide ReplyAt, FitsBudget;
  }

  lemma NoActivityFits(budget: nat)
    ensures budget >= 512 ==> EachFits([NoActivity()], budget)
    ensures EachFits([], budget)
  {
    assert |NoActivity()| < 64;
  }

  // ---- what the account says ----

  lemma MergesFewer(chunks: seq<string>, budget: nat, replies: seq<Option<string>>, n: nat, next: seq<string>)
    requires MergesTo(chunks, budget, replies, n, next)
    ensures |next| <= |chunks| && |chunks| > 1
  {
    PacksFewer(Partials(replies, n, |chunks|, budget), budget, next);
    hide Packs, Partials, Answered;
  }

  /** Merging leaves nothing if and only if every answer is empty. */
  lemma MergesToNothingExactlyWhen(chunks: seq<string>, budget: nat, replies: seq<Option<string>>, n: nat, next: seq<string>)
    requires MergesTo(chunks, budget, replies, n, next)
    ensures next == [] <==> forall i | n <= i < n + |chunks| :: ReplyAt(replies, i) == Some("")
  {
    PacksFewer(Partials(replies, n, |chunks|, budget), budget, next);
    hide Packs, Partials, NonEmpty, ReplyAt;
    AllEmpty(replies, n, |chunks|, budget);
  }

  lemma {:induction false} AllEmpty(replies: seq<Option<string>>, n: nat, count: nat, budget: nat)
    requires Answered(replies, n, n + count)
    ensures NonEmpty(Partials(replies, n, count, budget)) == [] <==> forall i | n <= i < n + count :: ReplyAt(replies, i) == Some("")
  {
    hide ReplyAt, Partials, NonEmpty;
    if count == 0 {
      NoPartials(replies, n, budget);
    } else {
      AllEmpty(replies, n, count - 1, budget);
      LastPartial(replies, n, count, budget);
    }
  }

  lemma NoPartials(replies: seq<Option<string>>, n: nat, budget: nat)
    ensures NonEmpty(Partials(replies, n, 0, budget)) == []
  {
  }

  lemma LastPartial(replies: seq<Option<string>>, n: nat, count: nat, budget: nat)
    requires count > 0 && ReplyAt(replies, n + count - 1).Some?
    ensures NonEmpty(Partials(replies, n, count, budget)) == [] <==>
      NonEmpty(Partials(replies, n, count - 1, budget)) == [] && ReplyAt(replies, n + count - 1) == Some("")
  {
    var text, texts := ReplyAt(replies, n + count - 1).value, Partials(replies, n, count - 1, budget);
    var bounded := BoundText(text, AnswerChars(budget));
    EmptyBound(text, AnswerChars(budget));
    hide BoundText, ReplyAt;
    assert Partials(replies, n, count, budget) == texts + [bounded];
    hide Partials;
    assert (texts + [bounded])[..count - 1] == texts;
  }

  lemma EmptyBound(text: string, maxChars: nat)
    ensures BoundText(text, maxChars) == "" <==> text == ""
  {
    if |text| > maxChars {
      assert |BoundText(text, maxChars)| >= |"chars, sha256:"|;
    }
  }

  lemma {:induction false} StagesShrink(first: seq<string>, budget: nat, replies: seq<Option<string>>, stages: seq<seq<string>>)
    requires Merges(first, budget, replies, stages)
    ensures stages != []
    ensures |stages[|stages| - 1]| <= |first| && |Flat(stages[..|stages| - 1])| <= (|stages| - 1) * |first|
    ensures |stages| > 1 ==> |first| > 1 && first <= Flat(stages[..|stages| - 1])
    ensures |stages| == 1 ==> stages[0] == first && Flat(stages[..0]) == []
    decreases |stages|
  {
    hide *;
    StagesThere(first, budget, replies, stages);
    LastStage(first, budget, replies, stages);
    SentByStages(stages, 0);
    var n := |stages| - 1;
    if n > 0 {
      StagesShrink(first, budget, replies, stages[..n]);
      assert stages[..n][..n - 1] == stages[..n - 1];
      SentByStages(stages, n - 1);
      MergesFewer(stages[n - 1], budget, replies, |Flat(stages[..n - 1])|, stages[n]);
      assert (n - 1) * |first| + |first| == n * |first|;
      assert n == 1 ==> [] + first == first;
    }
  }

  lemma StagesThere(first: seq<string>, budget: nat, replies: seq<Option<string>>, stages: seq<seq<string>>)
    requires Merges(first, budget, replies, stages)
    ensures stages != []
  {
  }

  /** At most four rounds of merging whose chunk count never grows, and one last call. */
  lemma CallsAreBounded(first: seq<string>, budget: nat, replies: seq<Option<string>>, stages: seq<seq<string>>,
                        summary: Summary, sent: seq<string>)
    requires Accounted(first, budget, replies, stages, summary, sent) && first != []
    ensures 1 <= |sent| <= 4 * |first| + 1
  {
    hide *;
    AccountMeans(first, budget, replies, stages, summary, sent);
    StagesShrink(first, budget, replies, stages);
    var n := |stages| - 1;
    SentAtMost(Flat(stages[..n]), stages[n], n == 4, replies, summary, sent);
    assert n * |first| + |first| == (n + 1) * |first|;
    assert n <= 4 ==> n * |first| <= 4 * |first|;
    assert n <= 3 ==> (n + 1) * |first| <= 4 * |first|;
  }

  lemma AccountMeans(first: seq<string>, budget: nat, replies: seq<Option<string>>, stages: seq<seq<string>>,
                     summary: Summary, sent: seq<string>)
    requires Accounted(first, budget, replies, stages, summary, sent)
    ensures Merges(first, budget, replies, stages) && 1 <= |stages| <= 5
    ensures ComesTo(Flat(stages[..|stages| - 1]), stages[|stages| - 1], |stages| - 1 == 4, replies, summary, sent)
  {
    hide ComesTo, Flat, MergesTo;
  }

  lemma SentAtMost(before: seq<string>, last: seq<string>, final: bool, replies: seq<Option<string>>, summary: Summary, sent: seq<string>)
    requires ComesTo(before, last, final, replies, summary, sent)
    ensures |before| <= |sent| <= |before| + |last| && before <= sent
    ensures final ==> |sent| <= |before| + 1
    ensures last != [] && !(|last| > 1 && final) ==> |sent| > |before|
    ensures before == [] ==> sent <= last
    ensures summary != ProviderThrew && |last| == 1 ==> sent == before + last
  {
    hide ReplyAt, Answered;
  }

  /** The initial chunks go out first and in order, and all of them do unless a call fails. */
  lemma InitialChunksGoOut(first: seq<string>, budget: nat, replies: seq<Option<string>>, stages: seq<seq<string>>,
                           summary: Summary, sent: seq<string>)
    requires Accounted(first, budget, replies, stages, summary, sent) && first != []
    ensures sent <= first || first <= sent
    ensures first <= sent || summary == ProviderThrew
  {
    hide *;
    AccountMeans(first, budget, replies, stages, summary, sent);
    StagesShrink(first, budget, replies, stages);
    var n := |stages| - 1;
    SentAtMost(Flat(stages[..n]), stages[n], n == 4, replies, summary, sent);
    if n == 0 {
      ManyOrFailed(first, replies, summary, sent);
      assert [] + first == first;
    }
  }

  lemma ManyOrFailed(last: seq<string>, replies: seq<Option<string>>, summary: Summary, sent: seq<string>)
    requires ComesTo([], last, false, replies, summary, sent)
    ensures |last| > 1 ==> summary == ProviderThrew
  {
    hide ReplyAt, Answered;
  }

  /** There is one account: chunks, budget and answers decide what is sent and what comes of it. */
  lemma AccountIsOne(first: seq<string>, budget: nat, replies: seq<Option<string>>, stages: seq<seq<string>>, summary: Summary,
                     sent: seq<string>, stages': seq<seq<string>>, summary': Summary, sent': seq<string>)
    requires Accounted(first, budget, replies, stages, summary, sent) && |stages| <= |stages'|
    requires Accounted(first, budget, replies, stages', summary', sent')
    ensures stages == stages' && summary == summary' && sent == sent'
  {
    hide *;
    AccountMeans(first, budget, replies, stages, summary, sent);
    AccountMeans(first, budget, replies, stages', summary', sent');
    SameStages(first, budget, replies, stages, stages');
    var n := |stages| - 1;
    var before, last := Flat(stages[..n]), stages[n];
    if |stages| < |stages'| {
      MergedOn(first, budget, replies, stages', n);
      assert stages'[..n] == stages[..n];
      AllAnswered(before, last, budget, replies, stages'[n + 1], summary, sent);
    }
    assert stages' == stages'[..|stages|];
    ComesToOne(before, last, n == 4, replies, summary, sent, summary', sent');
  }

  /** Chunks that were merged did not end the summary. */
  lemma AllAnswered(before: seq<string>, last: seq<string>, budget: nat, replies: seq<Option<string>>, next: seq<string>,
                    summary: Summary, sent: seq<string>)
    requires MergesTo(last, budget, replies, |before|, next)
    ensures !ComesTo(before, last, false, replies, summary, sent)
  {
    hide ReplyAt, Packs, Partials;
    assert forall i | |before| <= i < |before| + |last| :: ReplyAt(replies, i).Some?;
  }

  lemma ComesToOne(before: seq<string>, last: seq<string>, final: bool, replies: seq<Option<string>>, summary: Summary,
                   sent: seq<string>, summary': Summary, sent': seq<string>)
    requires ComesTo(before, last, final, replies, summary, sent) && ComesTo(before, last, final, replies, summary', sent')
    ensures summary == summary' && sent == sent'
  {
    hide ReplyAt;
    if last != [] && !(|last| > 1 && final) { assert |sent| == |sent'|; }
  }

  lemma {:induction false} MergedOn(first: seq<string>, budget: nat, replies: seq<Option<string>>, stages: seq<seq<string>>, d: nat)
    requires Merges(first, budget, replies, stages) && d < |stages| - 1
    ensures MergesTo(stages[d], budget, replies, |Flat(stages[..d])|, stages[d + 1])
    decreases |stages|
  {
    hide *;
    var n := |stages| - 1;
    LastStage(first, budget, replies, stages);
    if d < n - 1 {
      MergedOn(first, budget, replies, stages[..n], d);
      assert stages[..n][..d] == stages[..d];
    }
  }

  lemma {:induction false} SameStages(first: seq<string>, budget: nat, replies: seq<Option<string>>, a: seq<seq<string>>, b: seq<seq<string>>)
    requires Merges(first, budget, replies, a) && Merges(first, budget, replies, b) && |a| <= |b|
    ensures a == b[..|a|]
    decreases |a| + |b|
  {
    hide *;
    StagesThere(first, budget, replies, a);
    LastStage(first, budget, replies, a);
    LastStage(first, budget, replies, b);
    var m, n := |a| - 1, |b| - 1;
    if |a| < |b| {
      SameStages(first, budget, replies, a, b[..n]);
      assert b[..n][..|a|] == b[..|a|];
    } else if m > 0 {
      SameStages(first, budget, replies, a[..m], b[..n]);
      assert b[..n][..m] == b[..n];
      assert a[..m - 1] == a[..m][..m - 1] == b[..n][..m - 1] == b[..n - 1] && a[m - 1] == a[..m][m - 1] == b[n - 1];
      MergesOnce(a[m - 1], budget, replies, |Flat(a[..m - 1])|, a[m], b[n]);
      assert a == a[..m] + [a[m]] && b == b[..n] + [b[n]];
    } else {
      assert a == [a[0]] && b == [b[0]];
    }
  }

  lemma MergesOnce(chunks: seq<string>, budget: nat, replies: seq<Option<string>>, n: nat, next: seq<string>, next': seq<string>)
    requires MergesTo(chunks, budget, replies, n, next) && MergesTo(chunks, budget, replies, n, next')
    ensures next == next'
  {
    hide Packs, Partials, Answered;
    PacksOnce(Partials(replies, n, |chunks|, budget), budget, next, next');
  }
}
