/** One round's generation: the provider's segments, joined across length cuts into one assistant text. */
module Generation {
  import opened Options
  import opened Messages
  import opened Pairing

  const MAX_OUTPUT_CONTINUATIONS := 2

  /** What the loop itself says to the model. */
  datatype Instruction = GoOn

  function Wording(instruction: Instruction): string {
    "Continue the same answer exactly where it stopped. Do not repeat prior visible text."
  }

  datatype ErrorCode =
    | CostExceeded
    | ProviderError
    | ContinuationExhausted
    | AdmissionDenied
    | BudgetExhausted
    | EmptyResponse

  datatype Stop = Stopped | Length | ToolCalls

  datatype ProviderEvent =
    | Text(text: string)
    | Reasoning
    | Call(call: ToolCall)
    | Usage(overCeiling: bool)
    | Done(stop: Option<Stop>)

  /** How reading a stream ends: it runs out, a cancel is seen, or the provider throws. */
  datatype Ending = Finished | Cancelled | Failed(aborted: bool)

  /** The events one `send` lets the loop read, whatever the provider meant to say. */
  datatype Segment = Segment(events: seq<ProviderEvent>, ending: Ending)

  /** The n-th stream of a round; a provider with nothing left to say sends an empty one. */
  function SegmentAt(segments: seq<Segment>, n: nat): Segment {
    if n < |segments| then segments[n] else Segment([], Finished)
  }

  /** What a view and a provider observe, in order. */
  datatype Output =
    | Sent(messages: seq<Message>)
    | Delta(text: string)
    | Proposed(call: ToolCall)
    | UsageSeen
    | Recovery(continued: bool)
    | Error(code: ErrorCode)
    | TurnEnd

  // ---- reading the streams ----

  function TextOf(events: seq<ProviderEvent>): string {
    if events == [] then ""
    else TextOf(events[..|events| - 1]) + var e := events[|events| - 1]; if e.Text? then e.text else ""
  }

  function CallsOf(events: seq<ProviderEvent>): seq<ToolCall> {
    if events == [] then []
    else CallsOf(events[..|events| - 1]) + var e := events[|events| - 1]; if e.Call? then [e.call] else []
  }

  /** The last reported cause counts. */
  function StopOf(events: seq<ProviderEvent>): Option<Stop> {
    if events == [] then None
    else var e := events[|events| - 1]; if e.Done? then e.stop else StopOf(events[..|events| - 1])
  }

  /** Some usage report puts the session over its cost ceiling. */
  predicate OverCeiling(events: seq<ProviderEvent>) {
    events != [] && (OverCeiling(events[..|events| - 1]) || var e := events[|events| - 1]; e.Usage? && e.overCeiling)
  }

  lemma {:induction false} CeilingStays(events: seq<ProviderEvent>, i: nat)
    requires i <= |events| && OverCeiling(events[..i])
    ensures OverCeiling(events)
    decreases |events|
  {
    if i < |events| {
      assert events[..|events| - 1][..i] == events[..i];
      CeilingStays(events[..|events| - 1], i);
    } else {
      assert events[..i] == events;
    }
  }

  /** One more event read. */
  lemma ReadOneMore(events: seq<ProviderEvent>, i: nat, text: string, calls: seq<ToolCall>, stop: Option<Stop>)
    requires i < |events| && HasRead(events, i, text, calls, stop)
    ensures match events[i]
      case Text(more) => HasRead(events, i + 1, text + more, calls, stop)
      case Call(call) => HasRead(events, i + 1, text, calls + [call], stop)
      case Usage(over) => if over then OverCeiling(events[..i + 1]) else HasRead(events, i + 1, text, calls, stop)
      case Done(cause) => HasRead(events, i + 1, text, calls, cause)
      case Reasoning => HasRead(events, i + 1, text, calls, stop)
  {
    assert events[..i + 1][..i] == events[..i];
    Associates(text, "", "");
    Associates(calls, [], []);
  }

  predicate CutByLength(s: Segment) { s.ending.Finished? && StopOf(s.events) == Some(Length) }

  // ---- reading the outputs ----

  function Shown(out: seq<Output>): string {
    if out == [] then "" else Shown(out[..|out| - 1]) + var o := out[|out| - 1]; if o.Delta? then o.text else ""
  }

  function ProposedCalls(out: seq<Output>): seq<ToolCall> {
    if out == [] then []
    else ProposedCalls(out[..|out| - 1]) + var o := out[|out| - 1]; if o.Proposed? then [o.call] else []
  }

  /** The requests sent, in order. */
  function Requests(out: seq<Output>): seq<seq<Message>> {
    if out == [] then [] else Requests(out[..|out| - 1]) + var o := out[|out| - 1]; if o.Sent? then [o.messages] else []
  }

  /** The errors reported, in order. */
  function Errors(out: seq<Output>): seq<ErrorCode> {
    if out == [] then [] else Errors(out[..|out| - 1]) + var o := out[|out| - 1]; if o.Error? then [o.code] else []
  }

  /** Every request so far is pairing-complete. */
  ghost predicate SendsPaired(out: seq<Output>) { forall request | request in Requests(out) :: PairingComplete(request) }

  method Emit(out0: seq<Output>, o: Output) returns (out: seq<Output>)
    ensures Shown(out) == if o.Delta? then Shown(out0) + o.text else Shown(out0)
    ensures ProposedCalls(out) == if o.Proposed? then ProposedCalls(out0) + [o.call] else ProposedCalls(out0)
    ensures Requests(out) == if o.Sent? then Requests(out0) + [o.messages] else Requests(out0)
    ensures Errors(out) == if o.Error? then Errors(out0) + [o.code] else Errors(out0)
    ensures out == out0 + [o]
  {
    out := out0 + [o];
    assert out[..|out0|] == out0;
  }

  /** Emit something other than a request or a proposal. */
  method Tell(out0: seq<Output>, o: Output) returns (out: seq<Output>)
    requires !o.Sent? && !o.Proposed? && !o.Error?
    ensures Requests(out) == Requests(out0) && ProposedCalls(out) == ProposedCalls(out0) && Errors(out) == Errors(out0)
    ensures Shown(out) == if o.Delta? then Shown(out0) + o.text else Shown(out0)
    ensures out0 <= out
  {
    out := Emit(out0, o);
  }

  lemma Associates<T>(a: seq<T>, b: seq<T>, c: seq<T>)
    ensures a + (b + c) == (a + b) + c && a + [] == a
  {
  }

  // ---- joining a continuation ----

  predicate Overlaps(previous: string, next: string, k: nat) {
    k <= |previous| && k <= |next| && previous[|previous| - k..] == next[..k]
  }

  function LongestOverlap(previous: string, next: string, max: nat): (k: nat)
    requires max <= |previous| && max <= |next|
    ensures k <= max
  {
    if max == 0 || Overlaps(previous, next, max) then max else LongestOverlap(previous, next, max - 1)
  }

  lemma {:induction false} LongestOverlapIs(previous: string, next: string, max: nat)
    requires max <= |previous| && max <= |next|
    ensures Overlaps(previous, next, LongestOverlap(previous, next, max))
    ensures forall j | LongestOverlap(previous, next, max) < j <= max :: !Overlaps(previous, next, j)
  {
    if max > 0 && !Overlaps(previous, next, max) { LongestOverlapIs(previous, next, max - 1); }
  }

  lemma OverlapOrLess(previous: string, next: string, max: nat)
    requires 0 < max <= |previous| && max <= |next|
    ensures LongestOverlap(previous, next, max) ==
      if previous[|previous| - max..] == next[..max] then max else LongestOverlap(previous, next, max - 1)
  {
  }

  function Novel(previous: string, next: string): string {
    next[LongestOverlap(previous, next, if |previous| < |next| then |previous| else |next|)..]
  }

  method RemoveRepeatedPrefix(previous: string, next: string) returns (novel: string)
    ensures novel == Novel(previous, next)
  {
    ghost var max := if |previous| < |next| then |previous| else |next|;
    var overlap := if |previous| < |next| then |previous| else |next|;
    hide LongestOverlap;
    while overlap > 0
      invariant 0 <= overlap <= max
      invariant LongestOverlap(previous, next, max) == LongestOverlap(previous, next, overlap)
    {
      OverlapOrLess(previous, next, overlap);
      if previous[|previous| - overlap..] == next[..overlap] { return next[overlap..]; }
      overlap := overlap - 1;
    }
    novel := next;
  }

  predicate EndsWith(s: string, suffix: string) {
    |suffix| <= |s| && s[|s| - |suffix|..] == suffix
  }

  /** Any such string no longer than the two laid end to end overlaps them. */
  lemma JoinOverlaps(previous: string, next: string, z: string)
    requires previous <= z && EndsWith(z, next) && |z| <= |previous| + |next|
    ensures var o := |previous| + |next| - |z|; Overlaps(previous, next, o) && z == previous + next[o..]
  {
    var o := |previous| + |next| - |z|;
    assert previous[|previous| - o..] == z[|previous| - o..|previous|] == z[|z| - |next|..][..o] == next[..o];
    assert z == previous + z[|previous|..] && z[|previous|..] == z[|z| - |next|..][o..];
  }

  /** Joining yields the one shortest string that starts with the previous text and ends with the new segment. */
  lemma JoinIsShortest(previous: string, next: string)
    ensures EndsWith(previous + Novel(previous, next), next)
    ensures forall z: string | previous <= z && EndsWith(z, next) ::
      |z| > |previous + Novel(previous, next)| || z == previous + Novel(previous, next)
  {
    var k := |next| - |Novel(previous, next)|;
    var joined := previous + Novel(previous, next);
    LongestOverlapIs(previous, next, if |previous| < |next| then |previous| else |next|);
    assert Overlaps(previous, next, k);
    assert joined[|joined| - |next|..] == previous[|previous| - k..] + next[k..] == next;
    forall z: string | previous <= z && EndsWith(z, next) ensures |z| > |joined| || z == joined {
      if |z| <= |joined| { JoinOverlaps(previous, next, z); }
    }
  }

  /** The text of a round whose first `n` segments were cut by length. */
  function JoinedText(segments: seq<Segment>, n: nat): string {
    var t := TextOf(SegmentAt(segments, n).events);
    if n == 0 then t
    else var before := JoinedText(segments, n - 1); before + Novel(before, t)
  }

  // ---- where a round stops ----

  /** A segment after which the model is asked to go on. */
  predicate AsksForMore(s: Segment) { CutByLength(s) && !OverCeiling(s.events) }

  /** The first segment from `n` that does not ask for more, or the last one there may be. */
  function LastSegment(segments: seq<Segment>, n: nat): nat
    decreases MAX_OUTPUT_CONTINUATIONS - n
  {
    if n < MAX_OUTPUT_CONTINUATIONS && AsksForMore(SegmentAt(segments, n)) then LastSegment(segments, n + 1) else n
  }

  /** A segment that completes its round. */
  predicate Completes(s: Segment, cancelledBeforeCommit: bool) {
    s.ending.Finished? && !OverCeiling(s.events) && !CutByLength(s) && !cancelledBeforeCommit
  }

  /** What a round says of the segment it stops on. */
  function Complaint(s: Segment): seq<ErrorCode> {
    if OverCeiling(s.events) then [CostExceeded]
    else if s.ending.Failed? then (if s.ending.aborted then [] else [ProviderError])
    else if CutByLength(s) then [ContinuationExhausted]
    else []
  }

  // ---- the round ----

  predicate EndsTurn(out: seq<Output>) { out != [] && out[|out| - 1] == TurnEnd }

  method Close(out0: seq<Output>, code: Option<ErrorCode>) returns (out: seq<Output>)
    ensures Shown(out) == Shown(out0) && Requests(out) == Requests(out0) && ProposedCalls(out) == ProposedCalls(out0)
    ensures Errors(out) == if code.Some? then Errors(out0) + [code.value] else Errors(out0)
    ensures out0 <= out && EndsTurn(out)
  {
    out := out0;
    if code.Some? {
      out := Emit(out, Error(code.value));
    }
    out := Emit(out, TurnEnd);
  }

  /** Read one stream. Only the first segment of a round is shown as it arrives. */
  method Consume(segment: Segment, first: bool, out0: seq<Output>)
    returns (out: seq<Output>, text: string, calls: seq<ToolCall>, stop: Option<Stop>, overCeiling: bool)
    ensures Requests(out) == Requests(out0) && ProposedCalls(out) == ProposedCalls(out0)
    ensures out0 <= out && (overCeiling <==> OverCeiling(segment.events))
    ensures overCeiling ==> EndsTurn(out)
    ensures Errors(out) == if overCeiling then Errors(out0) + [CostExceeded] else Errors(out0)
    ensures !overCeiling ==>
      text == TextOf(segment.events) && calls == CallsOf(segment.events) && stop == StopOf(segment.events)
    ensures !overCeiling ==> Shown(out) == if first then Shown(out0) + text else Shown(out0)
  {
    hide *;
    var events := segment.events;
    out, text, calls, stop, overCeiling := out0, "", [], None, false;
    var i := 0;
    NothingRead(events);
    Associates(Shown(out0), "", "");
    while i < |events|
      decreases |events| - i
      invariant 0 <= i <= |events| && HasRead(events, i, text, calls, stop) && out0 <= out
      invariant Requests(out) == Requests(out0) && ProposedCalls(out) == ProposedCalls(out0) && Errors(out) == Errors(out0)
      invariant Shown(out) == if first then Shown(out0) + text else Shown(out0)
    {
      var e := events[i];
      ReadOneMore(events, i, text, calls, stop);
      Associates(Shown(out0), text, if e.Text? then e.text else "");
      i := i + 1;
      match e {
        case Text(more) =>
          if first { out := Tell(out, Delta(more)); }
          text := text + more;
        case Call(call) => calls := calls + [call];
        case Usage(over) =>
          out := Tell(out, UsageSeen);
          if over {
            out := Close(out, Some(CostExceeded));
            CeilingStays(events, i);
            overCeiling := true;
            return;
          }
        case Done(cause) => stop := cause;
        case Reasoning =>
      }
    }
    AllRead(events, text, calls, stop);
  }

  /** What the first `i` events amount to, none of them over the ceiling. */
  predicate HasRead(events: seq<ProviderEvent>, i: nat, text: string, calls: seq<ToolCall>, stop: Option<Stop>)
    requires i <= |events|
  {
    var some := events[..i];
    text == TextOf(some) && calls == CallsOf(some) && stop == StopOf(some) && !OverCeiling(some)
  }

  lemma NothingRead(events: seq<ProviderEvent>)
    ensures HasRead(events, 0, "", [], None)
  {
  }

  lemma AllRead(events: seq<ProviderEvent>, text: string, calls: seq<ToolCall>, stop: Option<Stop>)
    requires HasRead(events, |events|, text, calls, stop)
    ensures text == TextOf(events) && calls == CallsOf(events) && stop == StopOf(events) && !OverCeiling(events)
  {
    assert events[..|events|] == events;
    hide TextOf, CallsOf, StopOf, OverCeiling;
  }

  lemma CompleteIsQuiet(s: Segment, cancelledBeforeCommit: bool)
    ensures Completes(s, cancelledBeforeCommit) ==> Complaint(s) == []
    ensures AsksForMore(s) ==> Complaint(s) == [ContinuationExhausted]
  {
    hide OverCeiling, StopOf;
  }

  datatype Generated = Ended | Committed(text: string, calls: seq<ToolCall>)

  /** The request a continuation sends: nothing is re-measured, two messages are added at most. */
  function ContinuationRequest(messages: seq<Message>, text: string): seq<Message> {
    messages + (if text == "" then [] else [Assistant(text, [])]) + [User(Wording(GoOn))]
  }

  lemma ContinuationIsPairingComplete(messages: seq<Message>, text: string)
    requires PairingComplete(messages)
    ensures PairingComplete(ContinuationRequest(messages, text))
  {
    ReaderIsGrammar(messages);
    ReaderIsGrammar(ContinuationRequest(messages, text));
    hide PairingComplete, Read, Wording;
    var spoken := messages + if text == "" then [] else [Assistant(text, [])];
    if text == "" { assert spoken == messages; } else { ReadSnoc(messages, Assistant(text, [])); }
    assert Read(spoken) == Owes([]);
    ReadSnoc(spoken, User(Wording(GoOn)));
  }

  method Propose(calls: seq<ToolCall>, out0: seq<Output>) returns (out: seq<Output>)
    ensures out0 <= out && ProposedCalls(out) == ProposedCalls(out0) + calls
    ensures Shown(out) == Shown(out0) && Requests(out) == Requests(out0) && Errors(out) == Errors(out0)
  {
    hide Shown, ProposedCalls, Requests, Errors;
    out := out0;
    var i := 0;
    while i < |calls|
      invariant 0 <= i <= |calls| && out0 <= out
      invariant ProposedCalls(out) == ProposedCalls(out0) + calls[..i]
      invariant Shown(out) == Shown(out0) && Requests(out) == Requests(out0) && Errors(out) == Errors(out0)
    {
      out := Emit(out, Proposed(calls[i]));
      assert calls[..i + 1] == calls[..i] + [calls[i]];
      i := i + 1;
    }
    assert calls[..|calls|] == calls;
  }

  ghost predicate FirstCut(segments: seq<Segment>, n: nat) {
    forall i | 0 <= i < n :: CutByLength(SegmentAt(segments, i))
  }

  /** The assistant text before segment `n`. */
  function TextBefore(segments: seq<Segment>, n: nat): string { if n == 0 then "" else JoinedText(segments, n - 1) }

  /** Request `i` of a round: the messages it answers, after a segment cut by length with the text so far and the
      instruction to go on. */
  function RequestAt(messages: seq<Message>, segments: seq<Segment>, i: nat): seq<Message> {
    if i == 0 then messages else ContinuationRequest(messages, JoinedText(segments, i - 1))
  }

  /** These are the first `n` requests of a round. */
  predicate AreRequests(requests: seq<seq<Message>>, messages: seq<Message>, segments: seq<Segment>, n: nat) {
    |requests| == n && forall i | 0 <= i < n :: requests[i] == RequestAt(messages, segments, i)
  }

  lemma RequestsArePaired(requests: seq<seq<Message>>, messages: seq<Message>, segments: seq<Segment>, n: nat)
    requires AreRequests(requests, messages, segments, n) && PairingComplete(messages)
    ensures forall request | request in requests :: PairingComplete(request)
  {
    hide PairingComplete, ContinuationRequest, JoinedText;
    forall i | 0 <= i < n ensures PairingComplete(requests[i]) {
      if i > 0 { ContinuationIsPairingComplete(messages, JoinedText(segments, i - 1)); }
    }
  }

  /** Request `k` of the outputs carries the round's messages; a later one then the text shown by then, if any, as one assistant
      message without calls, and the instruction to go on. */
  predicate CarriesShown(messages: seq<Message>, out: seq<Output>, k: nat)
    requires k < |out| && out[k].Sent?
  {
    var shown := Shown(out[..k]);
    if Requests(out[..k]) == [] then out[k].messages == messages
    else out[k].messages == messages + (if shown == "" then [] else [Assistant(shown, [])]) + [User(Wording(GoOn))]
  }

  predicate AllCarryShown(messages: seq<Message>, out: seq<Output>) {
    forall k | 0 <= k < |out| && out[k].Sent? :: CarriesShown(messages, out, k)
  }

  lemma {:induction false} RequestsGrow(out: seq<Output>, k: nat)
    requires k < |out| && out[k].Sent?
    ensures |Requests(out)| > |Requests(out[..k])|
    decreases |out|
  {
    var n := |out| - 1;
    if k < n {
      assert out[..n][..k] == out[..k];
      RequestsGrow(out[..n], k);
    } else {
      assert out[..n] == out[..k];
    }
  }

  lemma {:induction false} RequestsOnward(out: seq<Output>, k: nat)
    requires k <= |out|
    ensures |Requests(out)| >= |Requests(out[..k])|
    decreases |out|
  {
    if k < |out| {
      assert out[..|out| - 1][..k] == out[..k];
      RequestsOnward(out[..|out| - 1], k);
    } else {
      assert out[..k] == out;
    }
  }

  /** Outputs among which there is no request change nothing of that. */
  lemma StillCarryShown(messages: seq<Message>, out: seq<Output>, out': seq<Output>)
    requires AllCarryShown(messages, out) && out <= out' && Requests(out') == Requests(out)
    ensures AllCarryShown(messages, out')
  {
    hide Shown, Requests, Wording;
    forall k | 0 <= k < |out'| && out'[k].Sent? ensures CarriesShown(messages, out', k) {
      if k < |out| {
        assert CarriesShown(messages, out, k) && out[..k] == out'[..k] && out[k] == out'[k];
      } else {
        assert out'[..k][..|out|] == out;
        RequestsOnward(out'[..k], |out|);
        RequestsGrow(out', k);
      }
    }
  }

  lemma OneMoreCarries(messages: seq<Message>, out: seq<Output>, request: seq<Message>)
    requires AllCarryShown(messages, out)
    requires request == if Requests(out) == [] then messages
      else messages + (if Shown(out) == "" then [] else [Assistant(Shown(out), [])]) + [User(Wording(GoOn))]
    ensures AllCarryShown(messages, out + [Sent(request)])
  {
    hide Shown, Requests, Wording;
    var out' := out + [Sent(request)];
    forall k | 0 <= k < |out'| && out'[k].Sent? ensures CarriesShown(messages, out', k) {
      assert out'[..k] == out[..k];
      if k < |out| { assert CarriesShown(messages, out, k); } else { assert out[..k] == out; }
    }
  }

  /** What a round's generation shows, proposes and sends; `last` is the segment it stopped on. */
  ghost predicate RoundSpeaks(messages: seq<Message>, segments: seq<Segment>, last: nat,
                              result: Generated, out: seq<Output>) {
    && last <= MAX_OUTPUT_CONTINUATIONS
    && AreRequests(Requests(out), messages, segments, last + 1) && AllCarryShown(messages, out)
    && FirstCut(segments, last)
    && (ProposedCalls(out) != [] ==>
          !CutByLength(SegmentAt(segments, last)) && ProposedCalls(out) == CallsOf(SegmentAt(segments, last).events))
    && (result.Committed? ==>
          && result.text == JoinedText(segments, last) == Shown(out)
          && result.calls == CallsOf(SegmentAt(segments, last).events) == ProposedCalls(out)
          && SegmentAt(segments, last).ending.Finished? && !CutByLength(SegmentAt(segments, last)))
  }

  /** A round stops on the first segment that does not ask for more, or the third, and commits exactly when that
      one completes it. */
  predicate Settled(segments: seq<Segment>, cancelledBeforeCommit: bool, last: nat, result: Generated) {
    && last == LastSegment(segments, 0)
    && (result.Committed? <==> Completes(SegmentAt(segments, last), cancelledBeforeCommit))
  }

  /** Where one segment leaves its round. */
  datatype After = Over | Complete(text: string, calls: seq<ToolCall>) | Continues(text: string)

  function TextAfter(segments: seq<Segment>, n: nat, before: string): string {
    var t := TextOf(SegmentAt(segments, n).events);
    before + if n == 0 then t else Novel(before, t)
  }

  /** Send one request and take its segment in. */
  method TakeSegment(segments: seq<Segment>, n: nat, before: string, cancelledBeforeCommit: bool, out0: seq<Output>)
    returns (after: After, out: seq<Output>)
    requires ProposedCalls(out0) == [] && Shown(out0) == before && (n == 0 ==> before == "")
    ensures out0 <= out && Requests(out) == Requests(out0)
    ensures after.Over? ==> Errors(out) == Errors(out0) + Complaint(SegmentAt(segments, n))
    ensures !after.Over? ==> Errors(out) == Errors(out0)
    ensures ProposedCalls(out) != [] ==>
      !CutByLength(SegmentAt(segments, n)) && ProposedCalls(out) == CallsOf(SegmentAt(segments, n).events)
    ensures after.Complete? ==>
      && SegmentAt(segments, n).ending.Finished? && !CutByLength(SegmentAt(segments, n))
      && after.text == TextAfter(segments, n, before) == Shown(out)
      && after.calls == CallsOf(SegmentAt(segments, n).events) == ProposedCalls(out)
    ensures after.Complete? <==> Completes(SegmentAt(segments, n), cancelledBeforeCommit)
    ensures after.Continues? <==> AsksForMore(SegmentAt(segments, n))
    ensures after.Over? ==> EndsTurn(out)
    ensures after.Continues? ==>
      && ProposedCalls(out) == []
      && after.text == TextAfter(segments, n, before) == Shown(out)
  {
    hide Shown, Requests, ProposedCalls, Errors, Novel, TextOf, CallsOf, StopOf, OverCeiling,
      EndsTurn;
    assert Errors(out0) + [] == Errors(out0);
    var segment := SegmentAt(segments, n);
    var text, calls, stop, overCeiling;
    out, text, calls, stop, overCeiling := Consume(segment, n == 0, out0);
    if overCeiling { return Over, out; }
    if segment.ending.Failed? {
      out := Close(out, if segment.ending.aborted then None else Some(ProviderError));
      return Over, out;
    }
    if segment.ending.Cancelled? {
      out := Close(out, None);
      return Over, out;
    }
    var novel := text;
    if n > 0 { novel := RemoveRepeatedPrefix(before, text); }
    var assistantText := before + novel;
    assert before + "" == before;
    if n > 0 && novel != "" {
      out := Emit(out, Delta(novel));
    }
    if stop == Some(Length) { return Continues(assistantText), out; }
    assert [] + calls == calls;
    out := Propose(calls, out);
    if cancelledBeforeCommit {
      out := Close(out, None);
      return Over, out;
    }
    return Complete(assistantText, calls), out;
  }

  function ResultOf(after: After): Generated {
    if after.Complete? then Committed(after.text, after.calls) else Ended
  }

  /** Between two segments: `last` of them were cut by length, `request` is what the next one answers. */
  ghost predicate Generating(messages: seq<Message>, segments: seq<Segment>, last: nat, text: string,
                             request: seq<Message>, out: seq<Output>) {
    && last <= MAX_OUTPUT_CONTINUATIONS
    && Errors(out) == [] && AllCarryShown(messages, out)
    && AreRequests(Requests(out), messages, segments, last) && request == RequestAt(messages, segments, last)
    && FirstCut(segments, last) && ProposedCalls(out) == []
    && LastSegment(segments, 0) == LastSegment(segments, last)
    && text == Shown(out) == TextBefore(segments, last)
  }

  method Generate(messages: seq<Message>, segments: seq<Segment>, cancelledBeforeCommit: bool)
    returns (result: Generated, out: seq<Output>, last: nat)
    ensures RoundSpeaks(messages, segments, last, result, out)
    ensures Settled(segments, cancelledBeforeCommit, last, result)
    ensures Errors(out) == Complaint(SegmentAt(segments, last))
    ensures result.Ended? ==> EndsTurn(out)
  {
    hide *;
    GeneratingStarts(messages, segments);
    var continuationIndex := 0;
    var request, after := messages, Continues("");
    out, last := [], 0;
    while after.Continues?
      invariant after.Continues? ==> last == continuationIndex && Generating(messages, segments, last, after.text, request, out)
      invariant !after.Continues? ==> RoundSpeaks(messages, segments, last, ResultOf(after), out)
      invariant !after.Continues? ==> Settled(segments, cancelledBeforeCommit, last, ResultOf(after)) && (after.Over? ==> EndsTurn(out))
      invariant !after.Continues? ==> Errors(out) == Complaint(SegmentAt(segments, last))
      decreases after.Continues?, MAX_OUTPUT_CONTINUATIONS - continuationIndex
    {
      after, out := OneSegment(messages, segments, continuationIndex, after.text, request, cancelledBeforeCommit, out);
      if after.Continues? {
        continuationIndex, last := continuationIndex + 1, last + 1;
        request := ContinuationRequest(messages, after.text);
      }
    }
    result := ResultOf(after);
    EndedIsOver(after);
  }

  lemma EndedIsOver(after: After)
    ensures !after.Continues? && ResultOf(after).Ended? ==> after.Over?
  {
  }

  lemma GeneratingStarts(messages: seq<Message>, segments: seq<Segment>)
    ensures Generating(messages, segments, 0, "", messages, [])
  {
  }

  lemma Joins(segments: seq<Segment>, n: nat)
    ensures TextAfter(segments, n, TextBefore(segments, n)) == JoinedText(segments, n)
  {
    assert n == 0 ==> "" + TextOf(SegmentAt(segments, n).events) == TextOf(SegmentAt(segments, n).events);
  }

  lemma OneMoreRequest(requests: seq<seq<Message>>, messages: seq<Message>, segments: seq<Segment>, n: nat, request: seq<Message>,
                       text: string)
    requires AreRequests(requests, messages, segments, n) && request == RequestAt(messages, segments, n)
    ensures AreRequests(requests + [request], messages, segments, n + 1)
    ensures text == JoinedText(segments, n) ==> ContinuationRequest(messages, text) == RequestAt(messages, segments, n + 1)
  {
    hide JoinedText, ContinuationRequest;
  }

  /** Send `request` and decide whether another continuation follows. */
  method OneSegment(messages: seq<Message>, segments: seq<Segment>, n: nat, before: string, request: seq<Message>,
               cancelledBeforeCommit: bool, out0: seq<Output>)
    returns (after: After, out: seq<Output>)
    requires Generating(messages, segments, n, before, request, out0)
    ensures after.Continues? ==>
      && n < MAX_OUTPUT_CONTINUATIONS
      && Generating(messages, segments, n + 1, after.text, ContinuationRequest(messages, after.text), out)
    ensures !after.Continues? ==> RoundSpeaks(messages, segments, n, ResultOf(after), out)
    ensures !after.Continues? ==> Settled(segments, cancelledBeforeCommit, n, ResultOf(after)) && (after.Over? ==> EndsTurn(out))
    ensures !after.Continues? ==> Errors(out) == Complaint(SegmentAt(segments, n))
  {
    CompleteIsQuiet(SegmentAt(segments, n), cancelledBeforeCommit);
    Joins(segments, n);
    hide Novel, Shown, Requests, ProposedCalls, TextOf, CallsOf, StopOf, OverCeiling, CutByLength,
      JoinedText, TextAfter, SegmentAt, ContinuationRequest, EndsTurn, AreRequests, Errors, Complaint;
    OneMoreRequest(Requests(out0), messages, segments, n, request, TextAfter(segments, n, before));
    NextCarries(messages, segments, n, before, request, out0);
    out := Emit(out0, Sent(request));
    ghost var sent := out;
    after, out := TakeSegment(segments, n, before, cancelledBeforeCommit, out);
    if after.Continues? {
      if n >= MAX_OUTPUT_CONTINUATIONS {
        out := Emit(out, Recovery(false));
        out := Close(out, Some(ContinuationExhausted));
        after := Over;
      } else {
        out := Emit(out, Recovery(true));
      }
    }
    StillCarryShown(messages, sent, out);
  }

  /** The next request carries what has been shown. */
  lemma NextCarries(messages: seq<Message>, segments: seq<Segment>, n: nat, before: string, request: seq<Message>, out: seq<Output>)
    requires Generating(messages, segments, n, before, request, out)
    ensures AllCarryShown(messages, out + [Sent(request)])
  {
    hide *;
    RequestIs(messages, segments, n);
    GeneratingMeans(messages, segments, n, before, request, out);
    OneMoreCarries(messages, out, request);
  }

  lemma GeneratingMeans(messages: seq<Message>, segments: seq<Segment>, n: nat, before: string, request: seq<Message>, out: seq<Output>)
    requires Generating(messages, segments, n, before, request, out)
    ensures request == RequestAt(messages, segments, n) && Shown(out) == TextBefore(segments, n)
    ensures (Requests(out) == [] <==> n == 0) && AllCarryShown(messages, out)
  {
    hide AllCarryShown, RequestAt, TextBefore, Shown, Requests, LastSegment, FirstCut, ProposedCalls, Errors, Wording;
  }

  lemma RequestIs(messages: seq<Message>, segments: seq<Segment>, n: nat)
    ensures var text := TextBefore(segments, n);
      RequestAt(messages, segments, n) == if n == 0 then messages
        else messages + (if text == "" then [] else [Assistant(text, [])]) + [User(Wording(GoOn))]
  {
    hide JoinedText, Wording;
  }

  // ---- what the text is ----

  /** The shortest text that starts with what was there and ends with what came, and the only one of its length. */
  ghost predicate ShortestJoin(before: string, next: string, text: string) {
    && before <= text && EndsWith(text, next)
    && forall z: string | before <= z && EndsWith(z, next) :: |z| > |text| || z == text
  }

  /** The text grows segment by segment, each continuation making the shortest join with the segment's own text. */
  ghost predicate GrowsBy(texts: seq<string>, segments: seq<Segment>) {
    && texts != [] && texts[0] == TextOf(SegmentAt(segments, 0).events)
    && forall n | 0 < n < |texts| :: ShortestJoin(texts[n - 1], TextOf(SegmentAt(segments, n).events), texts[n])
  }

  /** What a round commits is what it showed, grown by the shortest joins of its segments, and its last segment's calls. */
  lemma CommittedIs(messages: seq<Message>, segments: seq<Segment>, last: nat, result: Generated, out: seq<Output>)
    requires RoundSpeaks(messages, segments, last, result, out) && result.Committed?
    ensures exists texts :: |texts| == last + 1 && GrowsBy(texts, segments) && texts[last] == result.text == Shown(out)
    ensures result.calls == CallsOf(SegmentAt(segments, last).events) == ProposedCalls(out)
  {
    assert result.text == JoinedText(segments, last) == Shown(out);
    assert result.calls == CallsOf(SegmentAt(segments, last).events) == ProposedCalls(out);
    hide *;
    var texts := TextsUpTo(segments, last);
  }

  lemma {:induction false} TextsUpTo(segments: seq<Segment>, n: nat) returns (texts: seq<string>)
    ensures |texts| == n + 1 && GrowsBy(texts, segments) && texts[n] == JoinedText(segments, n)
  {
    hide TextOf, SegmentAt, ShortestJoin, JoinedText;
    JoinsGrow(segments, n);
    if n == 0 {
      texts := [JoinedText(segments, 0)];
    } else {
      var before := TextsUpTo(segments, n - 1);
      texts := before + [JoinedText(segments, n)];
    }
  }

  lemma JoinsGrow(segments: seq<Segment>, n: nat)
    ensures n == 0 ==> JoinedText(segments, n) == TextOf(SegmentAt(segments, n).events)
    ensures n > 0 ==> ShortestJoin(JoinedText(segments, n - 1), TextOf(SegmentAt(segments, n).events), JoinedText(segments, n))
  {
    hide TextOf, SegmentAt, Novel, EndsWith;
    if n > 0 {
      JoinIsShortest(JoinedText(segments, n - 1), TextOf(SegmentAt(segments, n).events));
    }
  }

  lemma Singles(event: ProviderEvent)
    ensures TextOf([event]) == if event.Text? then event.text else ""
    ensures CallsOf([event]) == if event.Call? then [event.call] else []
    ensures StopOf([event]) == if event.Done? then event.stop else None
    ensures OverCeiling([event]) <==> event == Usage(true)
  {
    assert [event][..0] == [];
    assert TextOf([]) == "" && CallsOf([]) == [];
  }

  /** Text and calls of a stream are those of its events, in order; the last reported stop counts; one report over the
      ceiling is enough. */
  lemma {:induction false} StreamsConcatenate(a: seq<ProviderEvent>, b: seq<ProviderEvent>)
    ensures TextOf(a + b) == TextOf(a) + TextOf(b) && CallsOf(a + b) == CallsOf(a) + CallsOf(b)
    ensures StopOf(a + b) == if exists e :: e in b && e.Done? then StopOf(b) else StopOf(a)
    ensures OverCeiling(a + b) <==> OverCeiling(a) || OverCeiling(b)
    decreases |b|
  {
    if b == [] {
      assert a + b == a;
      assert TextOf(a) + "" == TextOf(a) && CallsOf(a) + [] == CallsOf(a);
    } else {
      var n := |b| - 1;
      assert (a + b)[..|a + b| - 1] == a + b[..n] && (a + b)[|a + b| - 1] == b[n] && b == b[..n] + [b[n]];
      StreamsConcatenate(a, b[..n]);
    }
  }
}
