/** One tool result on its way to the model: honest about failure, bounded in bytes. */
module ToolResultBroker {
  import opened Options
  import opened Decimals
  import opened Utf8

  const DEFAULT_MAX_PREVIEW_BYTES := 16384
  const HARD_MAX_PREVIEW_BYTES := 65536
  const RENDER_HARD_CAP_BYTES := 65536
  const STDERR_PREVIEW_BYTES := 4096

  datatype Reason = ExitCode | Signal | Timeout | SpawnError | DeniedCall | ToolError

  /** What the protocol markers of a text say: a trailing exit marker's finite number, a denial line, a
      tool-error line, and whether the text speaks of a timeout. */
  datatype Markers = Markers(exit: Option<int>, denied: bool, mcpError: bool, timedOut: bool)

  datatype RawResult = RawResult(output: string, ok: bool, exitCode: Option<int>, signal: string, stderr: string, reason: Option<Reason>)

  datatype Truth = Truth(ok: bool, exitCode: Option<int>, reason: Option<Reason>)

  predicate NonZero(code: Option<int>) { code.Some? && code.value != 0 }

  /** Every sign of failure there is. */
  predicate SomethingFailed(raw: RawResult, m: Markers) {
    raw.signal != "" || NonZero(raw.exitCode) || NonZero(m.exit) || m.denied || m.mcpError
  }

  /** The first sign names the failure. */
  function FirstFailure(raw: RawResult, m: Markers): Option<Reason> {
    if raw.signal != "" then Some(Signal)
    else if NonZero(raw.exitCode) || NonZero(m.exit) then Some(ExitCode)
    else if m.denied then Some(DeniedCall)
    else if m.mcpError then Some(if m.timedOut then Timeout else ToolError)
    else None
  }

  /** Ok exactly when the caller said so and nothing speaks against it: truth is only ever downgraded. */
  predicate Honest(raw: RawResult, m: Markers, t: Truth) {
    && (t.ok <==> raw.ok && !SomethingFailed(raw, m))
    && (t.reason.None? <==> t.ok)
    && (!t.ok && raw.reason.Some? ==> t.reason == raw.reason)
    && (!t.ok && raw.reason.None? ==>
          t.reason == if FirstFailure(raw, m).Some? then FirstFailure(raw, m) else Some(ToolError))
    && t.exitCode == if raw.exitCode.Some? then raw.exitCode else if NonZero(m.exit) then m.exit else None
  }

  method ResolveExitTruth(raw: RawResult, m: Markers) returns (t: Truth)
    ensures Honest(raw, m, t)
  {
    var ok, exitCode, reason := raw.ok, raw.exitCode, raw.reason;
    if raw.signal != "" { ok, reason := Fail(reason, Signal); }
    if NonZero(exitCode) { ok, reason := Fail(reason, ExitCode); }
    if NonZero(m.exit) {
      ok, reason := Fail(reason, ExitCode);
      if exitCode.None? { exitCode := m.exit; }
    }
    if m.denied {
      ok, reason := Fail(reason, DeniedCall);
    } else if m.mcpError {
      ok, reason := Fail(reason, if m.timedOut then Timeout else ToolError);
    }
    t := Truth(ok, exitCode, if ok then None else if reason.Some? then reason else Some(ToolError));
  }

  method Fail(reason: Option<Reason>, why: Reason) returns (ok: bool, first: Option<Reason>)
    ensures !ok && first == if reason.Some? then reason else Some(why)
  {
    ok, first := false, if reason.Some? then reason else Some(why);
  }

  // ---- containment ----

  datatype StoreResult = Wrote(path: string, sameDigest: bool) | StoreThrew(message: string)

  datatype Envelope = Envelope(preview: string, contentRef: Option<string>, digest: string, bytes: nat, truncated: bool,
                               truth: Truth, stderr: Option<string>, storeError: Option<string>)

  /** The requested preview budget, clamped; no usable request means the default. */
  function ClampPreviewBytes(requested: Option<int>): (cap: nat)
    ensures 1 <= cap <= HARD_MAX_PREVIEW_BYTES
  {
    if requested.None? then DEFAULT_MAX_PREVIEW_BYTES
    else if requested.value > HARD_MAX_PREVIEW_BYTES then HARD_MAX_PREVIEW_BYTES
    else if requested.value < 1 then 1 else requested.value
  }

  function ByteLength(text: string): nat { |Encode(text)| }

  /** The longest code-point prefix within `max` bytes. */
  function Bounded(text: string, max: nat): string { text[..FittingPrefix(text, max)] }

  /** Nothing is lost below the budget; above it the model sees the longest prefix that fits, and the reference to
      the whole exactly when the store vouches for it. `digest` stands for the SHA-256 of the whole output. */
  predicate Contained(raw: RawResult, m: Markers, requested: Option<int>, store: StoreResult, digest: string, env: Envelope) {
    var cap := ClampPreviewBytes(requested);
    && Honest(raw, m, env.truth)
    && env.digest == digest && env.bytes == ByteLength(raw.output)
    && (env.truncated <==> env.bytes > cap)
    && env.preview == Bounded(raw.output, cap)
    && env.contentRef == (if env.truncated && store.Wrote? && store.sameDigest then Some(store.path) else None)
    && env.storeError == (if !env.truncated || env.contentRef.Some? then None
                          else if store.Wrote? then Some(DigestMismatch()) else Some(store.message))
    && env.stderr == (if raw.stderr == "" then None else Some(Bounded(raw.stderr, STDERR_PREVIEW_BYTES)))
  }

  method Contain(raw: RawResult, m: Markers, requested: Option<int>, store: StoreResult, digest: string) returns (env: Envelope)
    ensures Contained(raw, m, requested, store, digest, env)
    ensures var cap := ClampPreviewBytes(requested);
      && env.preview <= raw.output && ByteLength(env.preview) <= cap
      && (env.truncated ==> ByteLength(env.preview) >= cap - 3)
      && (!env.truncated ==> env.preview == raw.output)
    ensures requested.None? ==> (env.truncated <==> ByteLength(raw.output) > 16384)
    ensures requested.Some? && 1 <= requested.value <= 65536 ==> (env.truncated <==> ByteLength(raw.output) > requested.value)
    ensures requested.Some? && requested.value > 65536 ==> (env.truncated <==> ByteLength(raw.output) > 65536)
    ensures requested.Some? && requested.value < 1 ==> (env.truncated <==> ByteLength(raw.output) > 1)
    ensures env.stderr.Some? ==> env.stderr.value <= raw.stderr && ByteLength(env.stderr.value) <= STDERR_PREVIEW_BYTES
  {
    var cap := ClampPreviewBytes(requested);
    var truth := ResolveExitTruth(raw, m);
    var preview := Sliced(raw.output, cap);
    var truncated := ByteLength(raw.output) > cap;
    var contentRef, storeError := None, None;
    if truncated {
      match store {
        case Wrote(path, same) => if same { contentRef := Some(path); } else { storeError := Some(DigestMismatch()); }
        case StoreThrew(message) => storeError := Some(message);
      }
    }
    var stderr := None;
    if raw.stderr != "" {
      var bounded := Sliced(raw.stderr, STDERR_PREVIEW_BYTES);
      stderr := Some(bounded);
    }
    env := Envelope(if truncated then preview else raw.output, contentRef, digest, ByteLength(raw.output), truncated, truth, stderr, storeError);
  }

  function DigestMismatch(): string { "content digest mismatch" }

  /** Slice a text's own encoding and read it back. */
  method Sliced(text: string, max: nat) returns (prefix: string)
    ensures prefix == Bounded(text, max) && prefix <= text && ByteLength(prefix) <= max
    ensures ByteLength(text) > max ==> ByteLength(prefix) >= max - 3
    ensures ByteLength(text) <= max ==> prefix == text
  {
    var slice := SliceUtf8(Encode(text), max, text);
    FittingPrefixIs(text, max);
    if ByteLength(text) <= max { AllFits(text, max); }
    prefix := Decode(slice);
  }

  // ---- rendering ----

  function JoinLines(lines: seq<string>): string {
    if lines == [] then "" else "\n" + lines[0] + JoinLines(lines[1..])
  }

  function Number(i: int): string { if i < 0 then "-" + Decimal(-i) else Decimal(i) }

  function ReasonText(r: Reason): string {
    match r
    case ExitCode => "exit-code" case Signal => "signal" case Timeout => "timeout"
    case SpawnError => "spawn-error" case DeniedCall => "denied" case ToolError => "tool-error"
  }

  function StderrLine(stderr: string): string { "[deckent-stderr] " + stderr }

  /** The part of the truncation line that does not come from the store. */
  function CountsText(env: Envelope): string {
    "[deckent] tool-result truncated: " + Decimal(env.bytes) + " bytes (~" + Decimal((env.bytes + 3) / 4) + " tokens), sha256:" + env.digest
  }

  function StoreIntro(env: Envelope): string {
    if env.contentRef.Some? then "; full content at "
    else if env.storeError.Some? then "; full content unavailable (" else "; full content unavailable"
  }

  function StoreText(env: Envelope): string {
    if env.contentRef.Some? then env.contentRef.value else if env.storeError.Some? then env.storeError.value else ""
  }

  function StoreOutro(env: Envelope): string { if env.contentRef.None? && env.storeError.Some? then ")" else "" }

  function TruncationLine(env: Envelope): string {
    CountsText(env) + (StoreIntro(env) + (StoreText(env) + StoreOutro(env)))
  }

  function NotOkLine(t: Truth): string {
    "[deckent] tool-result not ok: " + ReasonText(if t.reason.Some? then t.reason.value else ToolError) +
    if t.exitCode.Some? then " (exit " + Number(t.exitCode.value) + ")" else ""
  }

  /** The lines that follow the preview; `visible` says whether the preview already shows a failure marker. */
  function TailLines(env: Envelope, visible: bool): seq<string> {
    (if env.stderr.Some? then [StderrLine(env.stderr.value)] else []) +
    (if env.truncated then [TruncationLine(env)] else []) +
    (if !env.truth.ok && !visible then [NotOkLine(env.truth)] else [])
  }

  ghost predicate Mentions(text: string, part: string) { exists a: string, b: string :: text == a + part + b }

  /** The text says so when a failure does not show, what the process wrote to its standard error, and when something was cut
      off: how much there was, what it was, and where the whole is. */
  ghost predicate SaysWhatHappened(text: string, env: Envelope, visible: bool) {
    && (!env.truth.ok && !visible ==> SaysNotOk(text, env.truth))
    && (env.stderr.Some? ==> Mentions(text, "\n" + ("[deckent-stderr] " + env.stderr.value)))
    && (env.truncated ==> SaysTruncated(text, env))
  }

  ghost predicate SaysNotOk(text: string, t: Truth) {
    exists reason, code ::
      IsReason(reason, t.reason) && IsCode(code, t.exitCode) && Mentions(text, "\n" + ("[deckent] tool-result not ok: " + reason + code))
  }

  ghost predicate SaysTruncated(text: string, env: Envelope) {
    exists bytes, tokens, store ::
      bytes == Decimal(env.bytes) && tokens == Decimal((env.bytes + 3) / 4) && IsWhereabouts(store, env.contentRef, env.storeError)
      && Mentions(text, "\n" +
           ("[deckent] tool-result truncated: " + bytes + " bytes (~" + tokens + " tokens), sha256:" + env.digest + store))
  }

  predicate IsWhereabouts(text: string, contentRef: Option<string>, storeError: Option<string>) {
    if contentRef.Some? then text == "; full content at " + contentRef.value
    else if storeError.Some? then text == "; full content unavailable (" + (storeError.value + ")")
    else text == "; full content unavailable"
  }

  predicate IsReason(text: string, r: Option<Reason>) {
    match r
    case Some(ExitCode) => text == "exit-code"
    case Some(Signal) => text == "signal"
    case Some(Timeout) => text == "timeout"
    case Some(SpawnError) => text == "spawn-error"
    case Some(DeniedCall) => text == "denied"
    case _ => text == "tool-error"
  }

  predicate IsCode(text: string, code: Option<int>) {
    match code
    case None => text == ""
    case Some(n) => text == " (exit " + (if n < 0 then "-" + Decimal(-n) else Decimal(n)) + ")"
  }

  lemma MentionsWithin(text: string, part: string, small: string)
    requires Mentions(text, part) && Mentions(part, small)
    ensures Mentions(text, small)
  {
    var a: string, b: string :| text == a + part + b;
    var c: string, d: string :| part == c + small + d;
    assert text == (a + c) + small + (d + b);
  }

  lemma {:induction false} JoinMentions(lines: seq<string>, i: nat)
    requires i < |lines|
    ensures Mentions(JoinLines(lines), "\n" + lines[i])
  {
    if i == 0 {
      assert JoinLines(lines) == "" + ("\n" + lines[0]) + JoinLines(lines[1..]);
    } else {
      JoinMentions(lines[1..], i - 1);
      var a: string, b: string :| JoinLines(lines[1..]) == a + ("\n" + lines[i]) + b;
      assert JoinLines(lines) == ("\n" + lines[0] + a) + ("\n" + lines[i]) + b;
    }
  }

  lemma LineMentioned(text: string, lines: seq<string>, line: string)
    requires line in lines && Mentions(text, JoinLines(lines))
    ensures Mentions(text, "\n" + line)
  {
    var i :| 0 <= i < |lines| && lines[i] == line;
    hide Mentions, JoinLines;
    JoinMentions(lines, i);
    MentionsWithin(text, JoinLines(lines), "\n" + line);
  }

  lemma TailSays(text: string, env: Envelope, visible: bool)
    requires Mentions(text, JoinLines(TailLines(env, visible)))
    ensures SaysWhatHappened(text, env, visible)
  {
    hide SaysNotOk, SaysTruncated, Mentions, JoinLines, NotOkLine, StderrLine, TruncationLine;
    var lines := TailLines(env, visible);
    if !env.truth.ok && !visible {
      LineMentioned(text, lines, NotOkLine(env.truth));
      NotOkSays(text, env.truth);
    }
    if env.stderr.Some? {
      LineMentioned(text, lines, StderrLine(env.stderr.value));
      StderrIs(env.stderr.value);
    }
    if env.truncated {
      LineMentioned(text, lines, TruncationLine(env));
      TruncationSays(text, env);
    }
  }

  lemma StderrIs(stderr: string)
    ensures StderrLine(stderr) == "[deckent-stderr] " + stderr
  {
  }

  lemma NotOkSays(text: string, t: Truth)
    requires Mentions(text, "\n" + NotOkLine(t))
    ensures SaysNotOk(text, t)
  {
    hide Mentions, ReasonText;
    var reason := ReasonText(if t.reason.Some? then t.reason.value else ToolError);
    var code := if t.exitCode.Some? then " (exit " + Number(t.exitCode.value) + ")" else "";
    NamesReason(t);
    assert IsCode(code, t.exitCode);
    hide IsReason, IsCode;
    assert IsReason(reason, t.reason) && Mentions(text, "\n" + ("[deckent] tool-result not ok: " + reason + code));
  }

  lemma NamesReason(t: Truth)
    ensures IsReason(ReasonText(if t.reason.Some? then t.reason.value else ToolError), t.reason)
  {
  }

  lemma TruncationSays(text: string, env: Envelope)
    requires Mentions(text, "\n" + TruncationLine(env))
    ensures SaysTruncated(text, env)
  {
    hide Mentions, Decimal, StoreIntro, StoreText, StoreOutro, IsWhereabouts;
    StoreSays(env);
    var bytes, tokens, store := Decimal(env.bytes), Decimal((env.bytes + 3) / 4), StoreIntro(env) + (StoreText(env) + StoreOutro(env));
    assert Mentions(text, "\n" +
      ("[deckent] tool-result truncated: " + bytes + " bytes (~" + tokens + " tokens), sha256:" + env.digest + store));
  }

  lemma StoreSays(env: Envelope)
    ensures IsWhereabouts(StoreIntro(env) + (StoreText(env) + StoreOutro(env)), env.contentRef, env.storeError)
  {
    var text, outro := StoreText(env), StoreOutro(env);
    if env.contentRef.Some? {
      assert text + outro == env.contentRef.value;
    } else if env.storeError.None? {
      assert text + outro == "" && StoreIntro(env) + "" == StoreIntro(env);
    }
  }

  /** The text is a prefix of the preview and then the tail; the whole preview when there is room for it. */
  predicate HeadThenTail(text: string, preview: string, head: string, tail: string) {
    && head <= preview && text == head + tail
    && (ByteLength(preview) + ByteLength(tail) <= RENDER_HARD_CAP_BYTES ==> head == preview)
  }

  /** Bounded by the hard cap exactly when the tail alone is; without a tail, exactly the preview. */
  method Render(env: Envelope, visible: bool) returns (text: string)
    ensures TailLines(env, visible) == [] ==> text == env.preview
    ensures var tail := JoinLines(TailLines(env, visible));
      TailLines(env, visible) != [] ==>
        && (ByteLength(text) <= RENDER_HARD_CAP_BYTES <==> ByteLength(tail) <= RENDER_HARD_CAP_BYTES)
        && exists head :: HeadThenTail(text, env.preview, head, tail)
    ensures SaysWhatHappened(text, env, visible)
  {
    hide StderrLine, TruncationLine, NotOkLine, Encode, SaysWhatHappened, Mentions;
    var tail: seq<string> := [];
    if env.stderr.Some? { tail := tail + [StderrLine(env.stderr.value)]; }
    if env.truncated { tail := tail + [TruncationLine(env)]; }
    if !env.truth.ok && !visible { tail := tail + [NotOkLine(env.truth)]; }
    assert tail == TailLines(env, visible);
    if tail == [] {
      NothingToSay(env, visible, env.preview);
      return env.preview;
    }
    hide TailLines;
    var tailText := JoinLines(tail);
    var budget := RENDER_HARD_CAP_BYTES - ByteLength(tailText);
    var head := Sliced(env.preview, if budget < 0 then 0 else budget);
    text := head + tailText;
    EncodeAppend(head, tailText);
    TailIsMentioned(head, tailText);
    TailSays(text, env, visible);
    assert HeadThenTail(text, env.preview, head, tailText);
  }

  lemma NothingToSay(env: Envelope, visible: bool, text: string)
    requires TailLines(env, visible) == []
    ensures SaysWhatHappened(text, env, visible)
  {
    hide Mentions, StderrLine, TruncationLine, NotOkLine;
  }

  lemma TailIsMentioned(head: string, tail: string)
    ensures Mentions(head + tail, tail)
  {
    assert head + tail == head + tail + "";
  }

  /** The numbers a machine counts with, and a store that does not ramble. */
  predicate Ordinary(raw: RawResult, m: Markers, store: StoreResult, digest: string) {
    && |digest| == 64 && ByteLength(raw.output) < COUNTABLE
    && (raw.exitCode.Some? ==> -COUNTABLE < raw.exitCode.value < COUNTABLE)
    && (m.exit.Some? ==> -COUNTABLE < m.exit.value < COUNTABLE)
    && ByteLength(match store case Wrote(path, _) => path case StoreThrew(message) => message) <= STORE_TEXT_BYTES
  }

  /** A small successful result without stderr reaches the model byte for byte; an ordinary one is within the hard cap;
      any is, exactly when the store's text finds room beside the rest of the tail. */
  method Broker(raw: RawResult, m: Markers, requested: Option<int>, store: StoreResult, digest: string, visible: bool)
    returns (text: string, ghost env: Envelope)
    ensures raw.ok && !SomethingFailed(raw, m) && raw.stderr == "" && ByteLength(raw.output) <= ClampPreviewBytes(requested) ==>
      text == raw.output
    ensures Contained(raw, m, requested, store, digest, env)
    ensures SaysWhatHappened(text, env, visible)
    ensures Ordinary(raw, m, store, digest) ==> ByteLength(text) <= RENDER_HARD_CAP_BYTES
    ensures ByteLength(text) <= RENDER_HARD_CAP_BYTES <==> ByteLength(StoreText(env)) <= StoreRoom(env, visible)
    ensures var tail := JoinLines(TailLines(env, visible));
      if TailLines(env, visible) == [] then text == env.preview
      else exists head :: HeadThenTail(text, env.preview, head, tail)
  {
    hide Encode, TruncationLine, StderrLine, NotOkLine, StoreText, JoinLines, SaysWhatHappened;
    var e := Contain(raw, m, requested, store, digest);
    env := e;
    text := Render(e, visible);
    EmptyBytes();
    TailFitsExactlyWhen(raw, m, requested, store, digest, e, visible);
    if Ordinary(raw, m, store, digest) { OrdinaryTailFits(raw, m, requested, store, digest, e, visible); }
  }

  lemma {:induction false} BytesPerCharacter(text: string)
    ensures |text| <= ByteLength(text) <= 4 * |text|
  {
    if text != "" { BytesPerCharacter(text[1..]); }
  }

  // ---- when the tail fits ----

  lemma BytesOfSum(a: string, b: string)
    ensures ByteLength(a + b) == ByteLength(a) + ByteLength(b)
  {
    EncodeAppend(a, b);
  }

  /** Room for what a store can put in the tail: its path, or its error. */
  const STORE_TEXT_BYTES := 59000

  const COUNTABLE: int := 1_0000_0000_0000_0000

  lemma NumbersAreShort(bytes: nat, t: Truth)
    requires bytes < COUNTABLE && (t.exitCode.Some? ==> -COUNTABLE < t.exitCode.value < COUNTABLE)
    ensures |Decimal(bytes)| <= 16 && |Decimal((bytes + 3) / 4)| <= 16
    ensures t.exitCode.Some? ==> |Number(t.exitCode.value)| <= 17
  {
    assert Pow10(16) == 1_0000_0000_0000_0000 by {
      assert Pow10(4) == 1_0000;
      assert Pow10(8) == 1_0000 * Pow10(4);
      assert Pow10(12) == 1_0000 * Pow10(8);
      assert Pow10(16) == 1_0000 * Pow10(12);
    }
    DecimalLength(bytes, 16);
    DecimalLength((bytes + 3) / 4, 16);
    if t.exitCode.Some? { DecimalLength(if t.exitCode.value < 0 then -t.exitCode.value else t.exitCode.value, 16); }
  }

  lemma CountsBytes(env: Envelope)
    requires |env.digest| == 64 && env.bytes < COUNTABLE
    ensures ByteLength(CountsText(env)) <= 680
    ensures ByteLength(StoreIntro(env)) + ByteLength(StoreOutro(env)) <= 120
  {
    NumbersAreShort(env.bytes, Truth(true, None, None));
    hide Encode, Decimal;
    assert |CountsText(env)| <= 170;
    assert |StoreIntro(env)| + |StoreOutro(env)| <= 30;
    BytesPerCharacter(CountsText(env));
    BytesPerCharacter(StoreIntro(env));
    BytesPerCharacter(StoreOutro(env));
    hide CountsText, StoreIntro, StoreOutro;
  }

  lemma TruncationLineBytes(env: Envelope)
    requires |env.digest| == 64 && env.bytes < COUNTABLE
    ensures ByteLength(TruncationLine(env)) <= 800 + ByteLength(StoreText(env))
  {
    CountsBytes(env);
    hide Encode, CountsText, StoreIntro, StoreText, StoreOutro;
    BytesOfSum(StoreText(env), StoreOutro(env));
    BytesOfSum(StoreIntro(env), StoreText(env) + StoreOutro(env));
    BytesOfSum(CountsText(env), StoreIntro(env) + (StoreText(env) + StoreOutro(env)));
  }

  lemma StderrLineBytes(stderr: string)
    ensures ByteLength(StderrLine(stderr)) <= 80 + ByteLength(stderr)
  {
    hide Encode;
    BytesPerCharacter("[deckent-stderr] ");
    BytesOfSum("[deckent-stderr] ", stderr);
  }

  lemma NotOkLineBytes(t: Truth)
    requires t.exitCode.Some? ==> -COUNTABLE < t.exitCode.value < COUNTABLE
    ensures ByteLength(NotOkLine(t)) <= 400
  {
    NumbersAreShort(0, t);
    hide Encode, Decimal, Number;
    assert |NotOkLine(t)| <= 100;
    BytesPerCharacter(NotOkLine(t));
  }

  lemma {:induction false} JoinLinesBytes(lines: seq<string>, more: string)
    ensures ByteLength(JoinLines(lines + [more])) == ByteLength(JoinLines(lines)) + 1 + ByteLength(more)
  {
    BytesOfSum("\n", more);
    if lines == [] {
      assert [] + [more] == [more] && [more][1..] == [] && "\n" + more + "" == "\n" + more;
    } else {
      assert (lines + [more])[1..] == lines[1..] + [more];
      JoinLinesBytes(lines[1..], more);
      BytesOfSum("\n" + lines[0], JoinLines(lines[1..]));
      BytesOfSum("\n" + lines[0], JoinLines(lines[1..] + [more]));
    }
  }

  /** With the store's text within its room and numbers a machine can count, the tail fits, so the rendered
      text is within the hard cap. */
  lemma TailFits(env: Envelope, visible: bool)
    requires |env.digest| == 64 && env.bytes < COUNTABLE
    requires env.truth.exitCode.Some? ==> -COUNTABLE < env.truth.exitCode.value < COUNTABLE
    requires env.stderr.Some? ==> ByteLength(env.stderr.value) <= STDERR_PREVIEW_BYTES
    requires ByteLength(StoreText(env)) <= STORE_TEXT_BYTES
    ensures ByteLength(JoinLines(TailLines(env, visible))) <= RENDER_HARD_CAP_BYTES
  {
    NotOkLineBytes(env.truth);
    if env.stderr.Some? { StderrLineBytes(env.stderr.value); }
    if env.truncated { TruncationLineBytes(env); }
    TailBytes(env, visible);
    hide StderrLine, TruncationLine, NotOkLine, StoreText, Encode, JoinLines, TailLines;
  }

  lemma EmptyBytes()
    ensures ByteLength(JoinLines([])) == 0
  {
  }

  lemma OrdinaryTailFits(raw: RawResult, m: Markers, requested: Option<int>, store: StoreResult, digest: string, env: Envelope, visible: bool)
    requires Ordinary(raw, m, store, digest) && Contained(raw, m, requested, store, digest, env)
    ensures ByteLength(JoinLines(TailLines(env, visible))) <= RENDER_HARD_CAP_BYTES
  {
    hide Encode, TailLines, JoinLines, FittingPrefix, DigestMismatch, NonZero, SomethingFailed, FirstFailure;
    FittingPrefixIs(raw.stderr, STDERR_PREVIEW_BYTES);
    ShortTexts();
    TailFits(env, visible);
  }

  lemma ShortTexts()
    ensures ByteLength("") == 0 && ByteLength(DigestMismatch()) <= STORE_TEXT_BYTES
  {
    BytesPerCharacter(DigestMismatch());
  }

  // ---- exactly when it fits ----

  /** The envelope with nothing in it that the store wrote. */
  function WithoutStoreText(env: Envelope): Envelope {
    env.(contentRef := if env.contentRef.Some? then Some("") else None,
         storeError := if env.storeError.Some? then Some("") else None)
  }

  /** What the rest of the tail leaves of the hard cap. */
  function StoreRoom(env: Envelope, visible: bool): int {
    RENDER_HARD_CAP_BYTES - ByteLength(JoinLines(TailLines(WithoutStoreText(env), visible)))
  }

  lemma StoreTextBytes(env: Envelope)
    ensures ByteLength(TruncationLine(env)) == ByteLength(TruncationLine(WithoutStoreText(env))) + ByteLength(StoreText(env))
  {
    hide *;
    TruncationLineParts(env);
    TruncationLineParts(WithoutStoreText(env));
    SameParts(env);
    ShortTexts();
  }

  lemma SameParts(env: Envelope)
    ensures var bare := WithoutStoreText(env);
      && CountsText(bare) == CountsText(env) && StoreIntro(bare) == StoreIntro(env) && StoreOutro(bare) == StoreOutro(env)
      && StoreText(bare) == ""
  {
  }

  lemma TruncationLineParts(env: Envelope)
    ensures ByteLength(TruncationLine(env)) ==
      ByteLength(CountsText(env)) + ByteLength(StoreIntro(env)) + ByteLength(StoreText(env)) + ByteLength(StoreOutro(env))
  {
    hide Encode, CountsText, StoreIntro, StoreText, StoreOutro;
    BytesOfSum(StoreText(env), StoreOutro(env));
    BytesOfSum(StoreIntro(env), StoreText(env) + StoreOutro(env));
    BytesOfSum(CountsText(env), StoreIntro(env) + (StoreText(env) + StoreOutro(env)));
  }

  lemma TailBytes(env: Envelope, visible: bool)
    ensures ByteLength(JoinLines(TailLines(env, visible))) ==
      (if env.stderr.Some? then 1 + ByteLength(StderrLine(env.stderr.value)) else 0) +
      (if env.truncated then 1 + ByteLength(TruncationLine(env)) else 0) +
      (if !env.truth.ok && !visible then 1 + ByteLength(NotOkLine(env.truth)) else 0)
  {
    hide StderrLine, TruncationLine, NotOkLine, Encode, JoinLines;
    var a := if env.stderr.Some? then [StderrLine(env.stderr.value)] else [];
    var b := a + if env.truncated then [TruncationLine(env)] else [];
    EmptyBytes();
    assert [] + a == a && b + [] == b && a + [] == a;
    if env.stderr.Some? { JoinLinesBytes([], StderrLine(env.stderr.value)); }
    if env.truncated { JoinLinesBytes(a, TruncationLine(env)); }
    if !env.truth.ok && !visible { JoinLinesBytes(b, NotOkLine(env.truth)); }
  }

  /** The documented bound is not unconditional: it fails exactly when the store's path or error is too long. */
  lemma TailFitsExactlyWhen(raw: RawResult, m: Markers, requested: Option<int>, store: StoreResult, digest: string, env: Envelope, visible: bool)
    requires Contained(raw, m, requested, store, digest, env)
    ensures ByteLength(JoinLines(TailLines(env, visible))) <= RENDER_HARD_CAP_BYTES <==>
      ByteLength(StoreText(env)) <= StoreRoom(env, visible)
  {
    hide StderrLine, TruncationLine, NotOkLine, Encode, JoinLines, TailLines, FittingPrefix, Honest;
    TailBytes(env, visible);
    TailBytes(WithoutStoreText(env), visible);
    StoreTextBytes(env);
    ShortTexts();
  }

  /** It happens: a store that throws a message as long as the cap leaves no room, whatever the result. */
  lemma LongErrorOverflows(raw: RawResult, m: Markers, requested: Option<int>, message: string, digest: string, env: Envelope, visible: bool)
    requires Contained(raw, m, requested, StoreThrew(message), digest, env) && env.truncated
    requires ByteLength(message) >= RENDER_HARD_CAP_BYTES
    ensures ByteLength(JoinLines(TailLines(env, visible))) > RENDER_HARD_CAP_BYTES
  {
    hide StderrLine, TruncationLine, NotOkLine, Encode, JoinLines, TailLines, FittingPrefix, Honest;
    TailBytes(env, visible);
    StoreTextBytes(env);
  }
}
