/** Tailing a worker's log file: lines read in any chunks are the lines of the whole. */
module WorkerLogs {
  import opened Options
  import Utf8

  function FirstNewline(s: string): (i: nat)
    ensures i <= |s| && (i < |s| ==> s[i] == '\n')
  {
    if s == "" || s[0] == '\n' then 0 else 1 + FirstNewline(s[1..])
  }

  lemma {:induction false} NoneBefore(s: string)
    ensures '\n' !in s[..FirstNewline(s)]
  {
    if s != "" && s[0] != '\n' {
      NoneBefore(s[1..]);
      assert s[..FirstNewline(s)] == [s[0]] + s[1..][..FirstNewline(s[1..])];
    }
  }

  /** `s.split('\n')`. */
  function Split(s: string): (segments: seq<string>)
    ensures |segments| > 0
    decreases |s|
  {
    var i := FirstNewline(s);
    if i == |s| then [s] else [s[..i]] + Split(s[i + 1..])
  }

  function JoinNewline(segments: seq<string>): string {
    if segments == [] then ""
    else if |segments| == 1 then segments[0]
    else segments[0] + "\n" + JoinNewline(segments[1..])
  }

  /** Splitting loses nothing and leaves no newline behind. */
  lemma {:induction false} SplitJoins(s: string)
    ensures JoinNewline(Split(s)) == s && forall p | p in Split(s) :: '\n' !in p
    decreases |s|
  {
    NoneBefore(s);
    var i := FirstNewline(s);
    if i == |s| {
      assert s[..i] == s;
    } else {
      SplitJoins(s[i + 1..]);
      assert s == s[..i] + "\n" + s[i + 1..];
      assert Split(s)[1..] == Split(s[i + 1..]);
    }
  }

  function Last<T>(s: seq<T>): T
    requires s != []
  {
    s[|s| - 1]
  }

  function DropLast<T>(s: seq<T>): seq<T>
    requires s != []
  {
    s[..|s| - 1]
  }

  /** The text after the last newline. */
  function Tail(s: string): string { Last(Split(s)) }

  function Complete(s: string): seq<string> { DropLast(Split(s)) }

  lemma ConsLast<T>(head: T, rest: seq<T>)
    requires rest != []
    ensures Last([head] + rest) == Last(rest) && DropLast([head] + rest) == [head] + DropLast(rest)
  {
  }

  lemma FirstLine(s: string)
    requires FirstNewline(s) < |s|
    ensures var i := FirstNewline(s);
      && Split(s) == [s[..i]] + Split(s[i + 1..])
      && Complete(s) == [s[..i]] + Complete(s[i + 1..]) && Tail(s) == Tail(s[i + 1..])
  {
    hide FirstNewline, Last, DropLast;
    var i := FirstNewline(s);
    assert Split(s) == [s[..i]] + Split(s[i + 1..]);
    hide Split;
    ConsLast(s[..i], Split(s[i + 1..]));
  }

  lemma NoNewline(s: string)
    requires FirstNewline(s) == |s|
    ensures Complete(s) == [] && Tail(s) == s
  {
    hide FirstNewline;
    assert Split(s) == [s];
  }

  lemma ConsAssociates<T>(head: T, a: seq<T>, b: seq<T>)
    ensures [head] + (a + b) == ([head] + a) + b && [] + b == b
  {
  }

  lemma FirstLineOfAppend(a: string, b: string)
    requires FirstNewline(a) < |a|
    ensures Split(a + b) == [a[..FirstNewline(a)]] + Split(a[FirstNewline(a) + 1..] + b)
  {
    hide *;
    var i := FirstNewline(a);
    FirstNewlineOfAppend(a, b);
    assert (a + b)[..i] == a[..i] && (a + b)[i + 1..] == a[i + 1..] + b;
    FirstLine(a + b);
  }

  /** Splitting a text in two is splitting the first part, then its tail with the second. */
  lemma {:induction false} SplitInTwo(a: string, b: string)
    ensures Split(a + b) == Complete(a) + Split(Tail(a) + b)
    decreases |a|
  {
    var i := FirstNewline(a);
    if i == |a| {
      assert Split(a) == [a];
      assert Complete(a) == [] && Tail(a) == a;
      hide *;
      ConsAssociates(a, [], Split(a + b));
    } else {
      hide *;
      FirstLineOfAppend(a, b);
      FirstLine(a);
      SplitInTwo(a[i + 1..], b);
      ConsAssociates(a[..i], Complete(a[i + 1..]), Split(Tail(a) + b));
    }
  }

  lemma {:induction false} FirstNewlineOfAppend(a: string, b: string)
    requires FirstNewline(a) < |a|
    ensures FirstNewline(a + b) == FirstNewline(a)
  {
    if a[0] != '\n' {
      assert (a + b)[1..] == a[1..] + b;
      FirstNewlineOfAppend(a[1..], b);
    }
  }

  /** A line without the carriage return of a CRLF log. */
  function Clean(line: string): string {
    if line != "" && line[|line| - 1] == '\r' then line[..|line| - 1] else line
  }

  /** The non-empty cleaned lines, in order: what is streamed. */
  function Shown(lines: seq<string>): seq<string> {
    if lines == [] then []
    else
      var last := Clean(lines[|lines| - 1]);
      Shown(lines[..|lines| - 1]) + if last == "" then [] else [last]
  }

  /** What a reader of the whole text would stream. */
  function LogLines(s: string): seq<string> { Shown(Complete(s)) }

  lemma {:induction false} ShownAppend(a: seq<string>, b: seq<string>)
    ensures Shown(a + b) == Shown(a) + Shown(b)
  {
    if b == [] {
      assert a + b == a && Shown(a) + [] == Shown(a);
    } else {
      var n := |b| - 1;
      assert (a + b)[..|a + b| - 1] == a + b[..n];
      ShownAppend(a, b[..n]);
    }
  }

  /** Chunking does not matter. */
  lemma LogLinesInTwo(a: string, b: string)
    ensures LogLines(a + b) == LogLines(a) + Shown(Complete(Tail(a) + b))
    ensures Tail(a + b) == Tail(Tail(a) + b)
  {
    SplitInTwo(a, b);
    var more := Split(Tail(a) + b);
    assert Complete(a + b) == Complete(a) + more[..|more| - 1];
    ShownAppend(Complete(a), more[..|more| - 1]);
  }

  /** A complete line that follows complete lines is streamed once, as it is or without its carriage return; an empty one is
      not. */
  lemma LineIsShown(a: string, line: string)
    requires Tail(a) == "" && '\n' !in line
    ensures Tail(a + line + "\n") == ""
    ensures line != "" && line[|line| - 1] != '\r' ==> LogLines(a + line + "\n") == LogLines(a) + [line]
    ensures line != "" && line[|line| - 1] != '\r' ==> LogLines(a + line + "\r\n") == LogLines(a) + [line]
    ensures line == "" ==> LogLines(a + line + "\n") == LogLines(a)
  {
    OneLine(a, line);
    if line != "" && line[|line| - 1] != '\r' {
      var ended := line + "\r";
      assert '\n' !in ended && ended[..|ended| - 1] == line;
      OneLine(a, ended);
      assert a + line + "\r\n" == a + ended + "\n";
    }
  }

  lemma OneLine(a: string, line: string)
    requires Tail(a) == "" && '\n' !in line
    ensures Tail(a + line + "\n") == ""
    ensures LogLines(a + line + "\n") == LogLines(a) + if Clean(line) == "" then [] else [Clean(line)]
  {
    var text := line + "\n";
    FirstNewlineOfLine(line);
    assert a + line + "\n" == a + text && Tail(a) + text == text && text[..|line|] == line && text[|line| + 1..] == "";
    LogLinesInTwo(a, text);
    FirstLine(text);
    NoNewline("");
    assert Complete(text) == [line] + [] == [line] && Tail(text) == "";
    assert [line][..0] == [];
    hide Clean, Complete, Tail;
    assert Shown([line]) == [] + if Clean(line) == "" then [] else [Clean(line)];
  }

  class LogTail {
    var closed: bool
    var readOffset: nat
    var lineBuffer: string
    var emitted: seq<string>

    /** The text taken in since the last restart, and the lines emitted before it. */
    ghost var consumed: string
    ghost var before: seq<string>

    ghost predicate Valid()
      reads this
    {
      && readOffset == |consumed| && lineBuffer == Tail(consumed)
      && emitted == before + LogLines(consumed)
    }

    constructor ()
      ensures Valid() && !closed && consumed == "" && before == [] && emitted == []
    {
      closed, readOffset, lineBuffer, emitted := false, 0, "", [];
      consumed, before := "", [];
    }

    method EmitLines(segments: seq<string>)
      modifies this`emitted
      ensures emitted == old(emitted) + Shown(segments)
    {
      var i := 0;
      assert segments[..0] == [];
      while i < |segments|
        invariant 0 <= i <= |segments| && emitted == old(emitted) + Shown(segments[..i])
      {
        assert segments[..i + 1][..i] == segments[..i];
        var clean := Clean(segments[i]);
        if clean != "" { emitted := emitted + [clean]; }
        i := i + 1;
      }
      assert segments[..|segments|] == segments;
    }

    /** Take in what the file holds beyond `readOffset`; no file, or one that cannot be read, is None. */
    method DrainFresh(file: Option<string>)
      requires Valid()
      modifies this
      ensures Valid() && closed == old(closed)
      ensures closed || file.None? ==> unchanged(this)
      ensures !closed && file.Some? ==>
        if |file.value| < old(readOffset) then before == old(emitted) && consumed == file.value
        else before == old(before) && consumed == old(consumed) + file.value[old(readOffset)..]
    {
      hide LogLines, Split, Shown;
      if closed || file.None? { return; }
      var content := file.value;
      if |content| < readOffset {
        Restart();
        readOffset, lineBuffer := 0, "";
        before, consumed := emitted, "";
        assert emitted + [] == emitted;
      }
      assert content[|content|..] == "" && consumed + "" == consumed && content[0..] == content
        && "" + content == content;
      if |content| <= readOffset {
        readOffset := |content|;
        return;
      }
      var addition := content[readOffset..];
      LogLinesInTwo(consumed, addition);
      readOffset := |content|;
      lineBuffer := lineBuffer + addition;
      var segments := Split(lineBuffer);
      EmitLines(segments[..|segments| - 1]);
      lineBuffer := segments[|segments| - 1];
      consumed := consumed + addition;
    }

    /** The client went away: nothing is streamed from here on. */
    method Close()
      modifies this`closed
      ensures closed
    {
      closed := true;
    }

    /** Any drains of a file that only grows, the tail closed before drain `stop`: exactly the lines of the text read
        until then, and its tail. */
    method Follow(files: seq<string>, stop: nat)
      requires Valid() && !closed && consumed == "" && emitted == []
      requires forall i, j | 0 <= i <= j < |files| :: files[i] <= files[j]
      modifies this
      ensures Valid()
      ensures var done := if stop < |files| then stop else |files|;
        var text := if done == 0 then "" else files[done - 1];
        emitted == LogLines(text) && lineBuffer == Tail(text)
    {
      hide LogLines, Tail;
      var i := 0;
      assert before == [] by { assert before + LogLines("") == []; }
      while i < |files|
        invariant 0 <= i <= |files| && Valid() && closed == (stop < i) && before == []
        invariant var done := if stop < i then stop else i;
          consumed == if done == 0 then "" else files[done - 1]
      {
        assert i > 0 ==> files[i - 1] <= files[i];
        assert i == 0 ==> files[0][0..] == files[0] && "" + files[0] == files[0];
        if i == stop { Close(); }
        DrainFresh(Some(files[i]));
        i := i + 1;
      }
      assert [] + LogLines(consumed) == LogLines(consumed);
    }

    /** Any drains of a file whose bytes grow towards those of `text`. */
    method FollowBytes(text: string, cuts: seq<nat>)
      requires Valid() && !closed && consumed == "" && emitted == []
      requires Growing(text, cuts)
      modifies this
      ensures Valid()
      ensures emitted == LogLines(Taken(text, cuts)) && lineBuffer == Tail(Taken(text, cuts))
    {
      assert before == [] by { assert before + LogLines("") == []; }
      Restart();
      var i := 0;
      assert cuts[..0] == [] && Taken(text, []) == "";
      hide LogLines, Tail, Taken, Seen, SeenLength;
      while i < |cuts|
        invariant 0 <= i <= |cuts| && Valid() && !closed && before == []
        invariant Growing(text, cuts[..i]) && consumed == Taken(text, cuts[..i])
      {
        assert cuts[..i + 1][..i] == cuts[..i];
        OneMoreCut(text, cuts, i);
        DrainFresh(Some(Utf8.Decode(Utf8.Encode(text)[..cuts[i]])));
        i := i + 1;
      }
      assert cuts[..i] == cuts && [] + LogLines(consumed) == LogLines(consumed);
    }
  }

  lemma OneMoreCut(text: string, cuts: seq<nat>, i: nat)
    requires Growing(text, cuts) && i < |cuts|
    ensures Growing(text, cuts[..i]) && Growing(text, cuts[..i + 1])
    ensures var before, seen := Taken(text, cuts[..i]), Seen(text, cuts[i]);
      |before| <= |seen| && Taken(text, cuts[..i + 1]) == before + seen[|before|..]
  {
    assert cuts[..i + 1][..i] == cuts[..i];
    TakenIs(text, cuts[..i], 0);
    SeenIs(text, cuts[i], 0);
    if i > 0 { SeenGrows(text, cuts[i - 1], cuts[i], 0); }
    hide Seen, SeenLength, Torn, TornAt;
  }

  lemma Restart()
    ensures LogLines("") == [] && Tail("") == ""
  {
  }

  // ---- a file of bytes ----

  /** What a read finds when the first `n` bytes of a text are in the file. */
  function Seen(text: string, n: nat): string
    requires n <= |Utf8.Encode(text)|
  {
    Utf8.Decode(Utf8.Encode(text)[..n])
  }

  predicate Growing(text: string, cuts: seq<nat>) {
    && (forall i | 0 <= i < |cuts| :: cuts[i] <= |Utf8.Encode(text)|)
    && forall i, j | 0 <= i <= j < |cuts| :: cuts[i] <= cuts[j]
  }

  /** What a tail has taken in after reads at these sizes: each adds what lies beyond the characters taken before. */
  function Taken(text: string, cuts: seq<nat>): string
    requires Growing(text, cuts)
  {
    if cuts == [] then ""
    else
      var before, seen := Taken(text, cuts[..|cuts| - 1]), Seen(text, cuts[|cuts| - 1]);
      if |before| <= |seen| then before + seen[|before|..] else before
  }

  /** The read at `n` tore the character at `j`. */
  predicate TornAt(text: string, n: nat, j: nat)
    requires n <= |Utf8.Encode(text)|
  {
    !Utf8.Boundary(text, n) && Utf8.FittingPrefix(text, n) == j
  }

  predicate Torn(text: string, cuts: seq<nat>, j: nat)
    requires Growing(text, cuts)
  {
    exists i :: 0 <= i < |cuts| && TornAt(text, cuts[i], j)
  }

  function SeenLength(text: string, n: nat): nat
    requires n <= |Utf8.Encode(text)|
  {
    Utf8.FittingPrefix(text, n) + if Utf8.Boundary(text, n) then 0 else 1
  }

  lemma SeenIs(text: string, n: nat, j: nat)
    requires n <= |Utf8.Encode(text)|
    ensures |Seen(text, n)| == SeenLength(text, n) <= |text|
    ensures j < SeenLength(text, n) ==> Seen(text, n)[j] == if TornAt(text, n, j) then '\U{FFFD}' else text[j]
    ensures TornAt(text, n, j) ==> j < SeenLength(text, n) && text[j] as int >= 0x80
  {
    Utf8.DecodePrefix(text, n);
    hide Utf8.Decode, Utf8.Encode, Utf8.Boundary;
  }

  /** A later read finds no fewer characters, and if it ends in the same one, tears it again. */
  lemma SeenGrows(text: string, m: nat, n: nat, j: nat)
    requires m <= n <= |Utf8.Encode(text)|
    ensures SeenLength(text, m) <= SeenLength(text, n)
    ensures j < SeenLength(text, m) && TornAt(text, n, j) ==> TornAt(text, m, j)
  {
    Utf8.FittingPrefixGrows(text, m, n);
    hide Utf8.Encode, Utf8.Boundary, Utf8.FittingPrefix;
  }

  /** Exactly the torn characters are replaced, for good. */
  lemma {:induction false} TakenIs(text: string, cuts: seq<nat>, j: nat)
    requires Growing(text, cuts)
    ensures |Taken(text, cuts)| == if cuts == [] then 0 else SeenLength(text, cuts[|cuts| - 1])
    ensures |Taken(text, cuts)| <= |text|
    ensures j < |Taken(text, cuts)| ==> Taken(text, cuts)[j] == if Torn(text, cuts, j) then '\U{FFFD}' else text[j]
    ensures Torn(text, cuts, j) ==> j < |Taken(text, cuts)| && text[j] as int >= 0x80
  {
    if cuts != [] {
      var k := |cuts| - 1;
      var init, n := cuts[..k], cuts[k];
      TakenIs(text, init, j);
      SeenIs(text, n, j);
      if k > 0 { SeenGrows(text, cuts[k - 1], n, j); }
      assert Taken(text, cuts) == Taken(text, init) + Seen(text, n)[|Taken(text, init)|..];
      TornOneMore(text, init, n, j);
      assert cuts == init + [n];
      hide Taken, Torn, TornAt, Seen, SeenLength;
    }
  }

  lemma TornOneMore(text: string, cuts: seq<nat>, n: nat, j: nat)
    requires Growing(text, cuts + [n]) && n <= |Utf8.Encode(text)|
    ensures Growing(text, cuts)
    ensures Torn(text, cuts + [n], j) <==> Torn(text, cuts, j) || TornAt(text, n, j)
  {
    var all := cuts + [n];
    assert forall i | 0 <= i < |cuts| :: cuts[i] == all[i];
    hide TornAt;
    assert all[|cuts|] == n;
  }

  lemma SameFirstNewline(a: string, b: string)
    requires |a| == |b| && forall j | 0 <= j < |a| :: a[j] == '\n' <==> b[j] == '\n'
    ensures FirstNewline(a) == FirstNewline(b)
  {
    if a != "" && a[0] != '\n' { SameFirstNewline(a[1..], b[1..]); }
  }

  /** The same line breaks in the same places. */
  predicate SameBreaks(a: string, b: string) {
    |a| == |b| && forall j | 0 <= j < |a| :: (a[j] == '\n' <==> b[j] == '\n') && (a[j] == '\r' <==> b[j] == '\r')
  }

  lemma ShownLine(line: string)
    ensures Shown([line]) == if Clean(line) == "" then [] else [Clean(line)]
  {
    assert [line][..0] == [] && Shown([]) == [];
  }

  lemma CleanDetermines(a: string, b: string)
    requires SameBreaks(a, b)
    ensures (Clean(a) == "") == (Clean(b) == "")
    ensures Clean(a) == Clean(b) ==> a == b
  {
    if a != "" && a[|a| - 1] == '\r' {
      assert a == Clean(a) + "\r" && b == Clean(b) + "\r";
    }
  }

  /** Texts with the same breaks that show the same lines and leave the same carry are the same. */
  lemma {:induction false} LinesDetermine(a: string, b: string)
    requires SameBreaks(a, b) && LogLines(a) == LogLines(b) && Tail(a) == Tail(b)
    ensures a == b
    decreases |a|
  {
    hide *;
    BreaksOf(a, b);
    SameFirstNewline(a, b);
    var i := FirstNewline(a);
    if i == |a| {
      NoNewline(a);
      NoNewline(b);
    } else {
      AfterFirst(a);
      AfterFirst(b);
      var la, lb, ra, rb := a[..i], b[..i], a[i + 1..], b[i + 1..];
      PartsAgree(a, b, i);
      CleanDetermines(la, lb);
      HeadsAgree(ShownOne(la), ShownOne(lb), LogLines(ra), LogLines(rb)) by {
        OneOrNone(la);
        OneOrNone(lb);
      }
      assert Clean(la) == Clean(lb) by {
        OneOrNone(la);
        OneOrNone(lb);
      }
      LinesDetermine(ra, rb);
    }
  }

  function ShownOne(line: string): seq<string> {
    if Clean(line) == "" then [] else [Clean(line)]
  }

  lemma OneOrNone(line: string)
    ensures ShownOne(line) == if Clean(line) == "" then [] else [Clean(line)]
  {
  }

  /** What a text shows is what its first line shows, then what the rest does. */
  lemma AfterFirst(s: string)
    requires FirstNewline(s) < |s|
    ensures var i := FirstNewline(s);
      && LogLines(s) == ShownOne(s[..i]) + LogLines(s[i + 1..])
      && Tail(s) == Tail(s[i + 1..])
      && s == s[..i] + "\n" + s[i + 1..]
  {
    hide *;
    FirstNewlineIs(s);
    var line, rest := s[..FirstNewline(s)], s[FirstNewline(s) + 1..];
    FirstLine(s);
    ShownAppend([line], Complete(rest));
    ShownLine(line);
    OneOrNone(line);
    ShowsComplete(s);
    ShowsComplete(rest);
  }

  lemma ShowsComplete(s: string)
    ensures LogLines(s) == Shown(Complete(s))
  {
  }

  lemma {:induction false} FirstNewlineIs(s: string)
    requires FirstNewline(s) < |s|
    ensures s == s[..FirstNewline(s)] + "\n" + s[FirstNewline(s) + 1..]
  {
    assert s[FirstNewline(s)] == '\n';
  }

  lemma BreaksOf(a: string, b: string)
    requires SameBreaks(a, b)
    ensures |a| == |b| && forall j | 0 <= j < |a| :: a[j] == '\n' <==> b[j] == '\n'
  {
  }

  lemma PartsAgree(a: string, b: string, i: nat)
    requires SameBreaks(a, b) && i < |a|
    ensures |a| == |b| && SameBreaks(a[..i], b[..i]) && SameBreaks(a[i + 1..], b[i + 1..])
  {
  }

  lemma HeadsAgree<T>(a: seq<T>, b: seq<T>, c: seq<T>, d: seq<T>)
    requires |a| == |b| && a + c == b + d
    ensures a == b && c == d
  {
    assert (a + c)[..|a|] == a && (b + d)[..|a|] == b && (a + c)[|a|..] == c && (b + d)[|a|..] == d;
  }

  /** The read at `n` cut between characters, or into one that is the replacement character anyway. */
  predicate CutsNothing(text: string, n: nat)
    requires n <= |Utf8.Encode(text)|
  {
    var k := Utf8.FittingPrefix(text, n);
    Utf8.Boundary(text, n) || (k < |text| && text[k] == '\U{FFFD}')
  }

  /** Once the whole file has been read, the tail agrees with it, lines and carry, if and only if no read ever cut a
      character. */
  lemma TailAgreesExactlyWhen(text: string, cuts: seq<nat>)
    requires Growing(text, cuts) && cuts != [] && cuts[|cuts| - 1] == |Utf8.Encode(text)|
    ensures (LogLines(Taken(text, cuts)) == LogLines(text) && Tail(Taken(text, cuts)) == Tail(text)) <==>
      forall i | 0 <= i < |cuts| :: CutsNothing(text, cuts[i])
  {
    var taken := Taken(text, cuts);
    WholeLength(text, cuts[|cuts| - 1]);
    TakenIs(text, cuts, 0);
    hide Taken, Torn, SeenLength, CutsNothing, LogLines, Tail, Utf8.Encode;
    assert |taken| == |text|;
    forall j: nat
      ensures j < |text| ==> taken[j] == if Torn(text, cuts, j) then '\U{FFFD}' else text[j]
      ensures Torn(text, cuts, j) ==> j < |text| && text[j] as int >= 0x80
    {
      TakenIs(text, cuts, j);
    }
    BreaksKept(taken, text);
    if LogLines(taken) == LogLines(text) && Tail(taken) == Tail(text) { LinesDetermine(taken, text); }
    NothingCut(text, cuts, taken);
  }

  lemma WholeLength(text: string, n: nat)
    requires n == |Utf8.Encode(text)|
    ensures SeenLength(text, n) == |text|
  {
    Utf8.AllFits(text, n);
  }

  lemma BreaksKept(taken: string, text: string)
    requires |taken| == |text|
    requires forall j | 0 <= j < |text| :: taken[j] == text[j] || (taken[j] == '\U{FFFD}' && text[j] as int >= 0x80)
    ensures SameBreaks(taken, text)
  {
  }

  lemma NothingCut(text: string, cuts: seq<nat>, taken: string)
    requires Growing(text, cuts) && |taken| == |text|
    requires forall j: nat | j < |text| :: taken[j] == if Torn(text, cuts, j) then '\U{FFFD}' else text[j]
    requires forall j: nat | Torn(text, cuts, j) :: j < |text|
    ensures taken == text <==> forall i | 0 <= i < |cuts| :: CutsNothing(text, cuts[i])
  {
    hide Utf8.Boundary, Utf8.FittingPrefix, Utf8.Encode;
    if taken == text {
      forall i | 0 <= i < |cuts| ensures CutsNothing(text, cuts[i]) {
        var k := Utf8.FittingPrefix(text, cuts[i]);
        if !Utf8.Boundary(text, cuts[i]) {
          assert TornAt(text, cuts[i], k);
          assert Torn(text, cuts, k);
        }
      }
    }
    if forall i | 0 <= i < |cuts| :: CutsNothing(text, cuts[i]) {
      forall j: nat | j < |text| ensures taken[j] == text[j] {
        if Torn(text, cuts, j) {
          var i :| 0 <= i < |cuts| && TornAt(text, cuts[i], j);
          assert CutsNothing(text, cuts[i]);
        }
      }
    }
  }

  lemma {:induction false} FirstNewlineOfLine(line: string)
    requires '\n' !in line
    ensures FirstNewline(line + "\n") == |line|
  {
    if line != "" {
      assert (line + "\n")[1..] == line[1..] + "\n";
      FirstNewlineOfLine(line[1..]);
    }
  }
}
