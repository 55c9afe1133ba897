/** Where prompts meet answers: a request may be answered before it is made, after it, or by a cancel. */
module PermissionBridge {
  import opened Options
  import opened Messages
  import opened Permission
  import opened ToolBatch

  /** What reaches the bridge within one turn. Ids are the provider's, and may repeat. */
  datatype Event = Request(id: string) | Respond(id: string, response: Response) | Cancel

  /** What becomes of the request at a position of the log. */
  datatype Fate = NoRequest | Waiting | Superseded | Given(at: nat) | CalledOff

  // ---- what a turn's events say about a request, without the bridge ----

  /** The last response to `id` before position `n`. */
  function LastAt(log: seq<Event>, n: nat, id: string): (at: Option<nat>)
    requires n <= |log|
    ensures at.Some? ==> at.value < n && log[at.value].Respond? && log[at.value].id == id
    ensures forall k | 0 <= k < n && log[k].Respond? && log[k].id == id :: at.Some? && k <= at.value
  {
    if n == 0 then None
    else if log[n - 1].Respond? && log[n - 1].id == id then Some(n - 1)
    else LastAt(log, n - 1, id)
  }

  /** The first thing from position `i` on that settles a request for `id`; another request for it takes its place. */
  function FirstReply(log: seq<Event>, i: nat, id: string): Fate
    requires i <= |log|
    decreases |log| - i
  {
    if i == |log| then Waiting
    else if log[i] == Cancel then CalledOff
    else if log[i] == Request(id) then Superseded
    else if log[i].Respond? && log[i].id == id then Given(i)
    else FirstReply(log, i + 1, id)
  }

  /** A cancel ahead of it; else the last response given ahead of it, unless that one answered an earlier request;
      else the first reply after it. */
  function Due(log: seq<Event>, p: nat): Fate
    requires p < |log|
    decreases p, 1
  {
    if !log[p].Request? then NoRequest
    else if Cancel in log[..p] then CalledOff
    else
      var ahead := LastAt(log, p, log[p].id);
      if ahead.Some? && !Taken(log, p, ahead.value) then Given(ahead.value)
      else FirstReply(log, p + 1, log[p].id)
  }

  /** A request before position `n` has this response. */
  predicate Taken(log: seq<Event>, n: nat, at: nat)
    requires n <= |log|
    decreases n, 0
  {
    exists q :: 0 <= q < n && Due(log, q) == Given(at)
  }

  /** The response that the next request for `id` would have. */
  function Ahead(log: seq<Event>, id: string): (at: Option<nat>)
    ensures at.Some? ==> at.value < |log| && log[at.value].Respond? && log[at.value].id == id
  {
    var at := LastAt(log, |log|, id);
    if at.Some? && !Taken(log, |log|, at.value) then at else None
  }

  function AnswerTo(log: seq<Event>, p: nat): Option<Response> {
    if p >= |log| then None
    else
      match Due(log, p)
      case Given(at) => if at < |log| && log[at].Respond? then Some(log[at].response) else None
      case CalledOff => Some(Reject)
      case _ => None
  }

  // ---- what an answer means ----

  lemma {:induction false} ReplyIsLater(log: seq<Event>, i: nat, id: string)
    requires i <= |log|
    ensures var r := FirstReply(log, i, id);
      r.Given? ==> i <= r.at < |log| && log[r.at].Respond? && log[r.at].id == id && Request(id) !in log[i..r.at]
    ensures FirstReply(log, i, id) == CalledOff ==> Cancel in log[i..]
    ensures FirstReply(log, i, id) == Waiting ==> Cancel !in log[i..]
    ensures FirstReply(log, i, id) == Superseded ==> Request(id) in log[i..]
    ensures FirstReply(log, i, id) != NoRequest
    decreases |log| - i
  {
    if i < |log| {
      ReplyIsLater(log, i + 1, id);
      assert log[i..] == [log[i]] + log[i + 1..];
      var r := FirstReply(log, i + 1, id);
      if r.Given? { assert log[i..r.at] == [log[i]] + log[i + 1..r.at]; }
    }
  }

  /** The response a request has was given for its id: ahead of it and not yet taken, or after it and before the id
      was requested again. */
  predicate Theirs(log: seq<Event>, p: nat, at: nat)
    requires p < |log| && log[p].Request?
  {
    && at < |log| && log[at].Respond? && log[at].id == log[p].id
    && if at < p then !Taken(log, p, at) else at > p && log[p] !in log[p + 1..at]
  }

  lemma FateIs(log: seq<Event>, p: nat)
    requires p < |log|
    ensures Due(log, p) == NoRequest <==> !log[p].Request?
    ensures Due(log, p).Given? ==> Theirs(log, p, Due(log, p).at)
    ensures Due(log, p) == CalledOff ==> Cancel in log[..p] || Cancel in log[p + 1..]
    ensures Due(log, p) == Waiting ==> Cancel !in log[..p] && Cancel !in log[p + 1..]
    ensures Due(log, p) == Superseded ==> log[p] in log[p + 1..]
  {
    if log[p].Request? { ReplyIsLater(log, p + 1, log[p].id); }
    hide FirstReply, Taken;
  }

  lemma InParts(log: seq<Event>, p: nat, e: Event)
    requires p < |log| && log[p] != e
    ensures e in log <==> e in log[..p] || e in log[p + 1..]
  {
    assert log == log[..p] + [log[p]] + log[p + 1..];
  }

  /** An answer other than a rejection was given for this very id in this very turn, and a rejection was given for it
      or is a cancel's. After a cancel only a request whose place another took is left unanswered. */
  lemma AnswerIsTheirs(log: seq<Event>, p: nat)
    requires p < |log| && log[p].Request?
    ensures AnswerTo(log, p).Some? ==>
      Respond(log[p].id, AnswerTo(log, p).value) in log || (Cancel in log && AnswerTo(log, p) == Some(Reject))
    ensures AnswerTo(log, p).None? ==> (Due(log, p) == Waiting && Cancel !in log) || (Due(log, p) == Superseded && log[p] in log[p + 1..])
  {
    FateIs(log, p);
    hide Due, Taken;
    InParts(log, p, Cancel);
  }

  /** No response answers two requests. */
  lemma AnswersOnce(log: seq<Event>, p: nat, q: nat)
    requires q < p < |log| && Due(log, p).Given?
    ensures Due(log, q) != Due(log, p)
  {
    FateIs(log, p);
    FateIs(log, q);
    var at := Due(log, p).at;
    var between := if at > p then log[q + 1..at] else [];
    assert at > p ==> between[p - q - 1] == log[p];
    IsTaken(log, p, q);
    hide Due, Taken;
  }

  lemma IsTaken(log: seq<Event>, n: nat, q: nat)
    requires q < n <= |log|
    ensures Due(log, q).Given? ==> Taken(log, n, Due(log, q).at)
  {
    hide Due;
  }

  lemma TakenBy(log: seq<Event>, n: nat, at: nat) returns (q: nat)
    requires n <= |log| && Taken(log, n, at)
    ensures q < n && Due(log, q) == Given(at)
  {
    hide Due;
    q :| q < n && Due(log, q) == Given(at);
  }

  /** The first request for an id has the last response given ahead of it, or else the first reply after it. */
  lemma FirstRequestIs(log: seq<Event>, p: nat)
    requires p < |log| && log[p].Request? && log[p] !in log[..p] && Cancel !in log[..p]
    ensures var ahead := LastAt(log, p, log[p].id);
      Due(log, p) == if ahead.Some? then Given(ahead.value) else FirstReply(log, p + 1, log[p].id)
  {
    var ahead := LastAt(log, p, log[p].id);
    assert forall q | 0 <= q < p :: log[q] == log[..p][q];
    hide FirstReply, Taken;
    if ahead.Some? && Taken(log, p, ahead.value) {
      var q := TakenBy(log, p, ahead.value);
      FateIs(log, q);
    }
  }

  /** With ids that repeat, the second of two answers in a row waits for the id's next request, which is then settled
      without anybody being asked. */
  lemma SecondAnswerWaits(log: seq<Event>, at: nat, p: nat)
    requires 0 < at < p < |log| && log[p].Request? && Cancel !in log[..p]
    requires log[at - 1].Respond? && log[at].Respond? && log[at - 1].id == log[at].id == log[p].id
    requires forall k | at < k < p :: log[k].Cancel? || log[k].id != log[p].id
    ensures Due(log, p) == Given(at)
  {
    var id := log[p].id;
    if Taken(log, p, at) {
      var q := TakenBy(log, p, at);
      FateIs(log, q);
      FirstReplyStops(log, q, at);
      hide *;
    }
    hide FirstReply, Taken;
  }

  /** No request has the second of two responses in a row while it waits. */
  lemma FirstReplyStops(log: seq<Event>, q: nat, at: nat)
    requires q < |log| && 0 < at < |log| && log[at - 1].Respond? && log[at].Respond? && log[at - 1].id == log[at].id
    ensures Due(log, q) == Given(at) ==> q > at
  {
    FateIs(log, q);
    if log[q].Request? && q < at {
      PassesNoReply(log, q + 1, log[at].id, at);
    }
    hide FirstReply, Taken;
  }

  lemma {:induction false} PassesNoReply(log: seq<Event>, i: nat, id: string, at: nat)
    requires 0 < at < |log| && i <= |log| && log[at - 1].Respond? && log[at - 1].id == id
    ensures i < at ==> FirstReply(log, i, id) != Given(at)
    decreases |log| - i
  {
    if i < at - 1 { PassesNoReply(log, i + 1, id, at); }
  }

  // ---- one more event ----

  lemma {:induction false} LastSnoc(log: seq<Event>, n: nat, id: string, last: Event)
    requires n <= |log|
    ensures LastAt(log + [last], n, id) == LastAt(log, n, id)
  {
    if n > 0 { LastSnoc(log, n - 1, id, last); }
  }

  /** What an event does to a request that waits for `id`. */
  function Settles(id: string, last: Event, at: nat): Fate {
    match last
    case Cancel => CalledOff
    case Request(r) => if r == id then Superseded else Waiting
    case Respond(r, _) => if r == id then Given(at) else Waiting
  }

  lemma {:induction false} ReplySnoc(log: seq<Event>, i: nat, id: string, last: Event)
    requires i <= |log|
    ensures FirstReply(log + [last], i, id) ==
      if FirstReply(log, i, id) == Waiting then Settles(id, last, |log|) else FirstReply(log, i, id)
    decreases |log| - i
  {
    if i == |log| {
      assert FirstReply(log + [last], i + 1, id) == Waiting;
    } else {
      ReplySnoc(log, i + 1, id, last);
    }
  }

  /** How one more event moves the fate of a request: only one that waits is moved. */
  lemma {:induction false} DueSnoc(log: seq<Event>, p: nat, last: Event)
    requires p < |log|
    ensures Due(log + [last], p) == if Due(log, p) == Waiting then Settles(log[p].id, last, |log|) else Due(log, p)
    decreases p
  {
    if log[p].Request? {
      var id := log[p].id;
      ReplySnoc(log, p + 1, id, last);
      LastSnoc(log, p, id, last);
      assert (log + [last])[..p] == log[..p];
      var ahead := LastAt(log, p, id);
      if ahead.Some? { TakenSnoc(log, p, ahead.value, last); }
      hide FirstReply, Taken, Settles;
    }
  }

  lemma {:induction false} TakenSnoc(log: seq<Event>, n: nat, at: nat, last: Event)
    requires n <= |log| && at < |log|
    ensures Taken(log + [last], n, at) == Taken(log, n, at)
    decreases n, 1
  {
    hide Due;
    forall q | 0 <= q < n ensures Due(log + [last], q) == Given(at) <==> Due(log, q) == Given(at) {
      DueSnoc(log, q, last);
    }
  }

  lemma NewRequest(log: seq<Event>, id: string)
    ensures Due(log + [Request(id)], |log|) ==
      if Cancel in log then CalledOff else if Ahead(log, id).Some? then Given(Ahead(log, id).value) else Waiting
  {
    var next := log + [Request(id)];
    assert next[..|log|] == log;
    LastSnoc(log, |log|, id, Request(id));
    var at := LastAt(log, |log|, id);
    if at.Some? { TakenSnoc(log, |log|, at.value, Request(id)); }
    assert FirstReply(next, |log| + 1, id) == Waiting;
    hide Taken, FirstReply;
  }

  predicate Waits(log: seq<Event>, id: string, p: nat) {
    p < |log| && log[p] == Request(id) && Due(log, p) == Waiting
  }

  /** How one more event moves the response kept for the next request. */
  lemma AheadSnoc(log: seq<Event>, id: string, last: Event)
    requires Cancel !in log && last != Cancel
    ensures Ahead(log + [last], id) ==
      if last == Request(id) then None
      else if last.Respond? && last.id == id then
        if exists p: nat :: Waits(log, id, p) then None else Some(|log|)
      else Ahead(log, id)
  {
    hide Due, Taken;
    var next := log + [last];
    LastSnoc(log, |log|, id, last);
    TakenOneMore(next, |log|);
    if last.Respond? && last.id == id {
      SettledByLast(log, id, last);
    } else {
      var at := LastAt(log, |log|, id);
      if at.Some? {
        TakenSnoc(log, |log|, at.value, last);
        TakenByLast(log, id, at.value, last);
      }
    }
  }

  lemma TakenOneMore(log: seq<Event>, n: nat)
    requires n < |log|
    ensures forall at: nat :: Taken(log, n + 1, at) <==> Taken(log, n, at) || Due(log, n) == Given(at)
  {
    hide Due;
    forall at: nat | Due(log, n) == Given(at) ensures Taken(log, n + 1, at) {
    }
  }

  /** The last event takes a response given before exactly when it is the request that response waits for. */
  lemma TakenByLast(log: seq<Event>, id: string, at: nat, last: Event)
    requires Cancel !in log && LastAt(log, |log|, id) == Some(at)
    ensures Due(log + [last], |log|) == Given(at) <==> last == Request(id) && !Taken(log, |log|, at)
  {
    if last.Request? {
      NewRequest(log, last.id);
    }
    hide Due, Taken;
  }

  lemma SettledByLast(log: seq<Event>, id: string, last: Event)
    requires last.Respond? && last.id == id
    ensures Taken(log + [last], |log| + 1, |log|) <==>
      exists p: nat :: Waits(log, id, p)
  {
    var next := log + [last];
    assert Due(next, |log|) == NoRequest;
    hide Due;
    forall p | 0 <= p < |log|
      ensures Due(next, p) == Given(|log|) <==> log[p] == Request(id) && Due(log, p) == Waiting
    {
      DueSnoc(log, p, last);
      NotAhead(log, p);
    }
    assert forall p: nat :: Waits(log, id, p) <==> p < |log| && log[p] == Request(id) && Due(log, p) == Waiting;
    SettlesSome(log, id, next);
  }

  lemma SettlesSome(log: seq<Event>, id: string, next: seq<Event>)
    requires |next| == |log| + 1 && Due(next, |log|) == NoRequest
    requires forall p | 0 <= p < |log| :: Due(next, p) == Given(|log|) <==> Waits(log, id, p)
    ensures Taken(next, |log| + 1, |log|) <==> exists p: nat :: Waits(log, id, p)
  {
    hide Due;
    if p: nat :| Waits(log, id, p) { assert Due(next, p) == Given(|log|); }
  }

  lemma NotAhead(log: seq<Event>, p: nat)
    requires p < |log|
    ensures Due(log, p) != Given(|log|)
    ensures Due(log, p) == Waiting ==> log[p].Request?
  {
    FateIs(log, p);
    hide Due, Taken;
  }

  // ---- the bridge ----

  function Get<K, V>(m: map<K, V>, k: K): Option<V> { if k in m then Some(m[k]) else None }

  ghost predicate Parked(log: seq<Event>, pending: map<string, nat>) {
    forall id, p: nat :: Get(pending, id) == Some(p) <==> Waits(log, id, p)
  }

  ghost predicate Settled(log: seq<Event>, answers: map<nat, Response>) {
    forall p: nat :: Get(answers, p) == AnswerTo(log, p)
  }

  function AheadResponse(log: seq<Event>, id: string): Option<Response> {
    if Ahead(log, id).Some? then Some(log[Ahead(log, id).value].response) else None
  }

  ghost predicate Kept(log: seq<Event>, preAnswers: map<string, Response>) {
    Cancel !in log ==> forall id :: Get(preAnswers, id) == AheadResponse(log, id)
  }

  lemma SettledOneMore(log: seq<Event>, answers: map<nat, Response>, last: Event, after: map<nat, Response>)
    requires Settled(log, answers)
    requires forall p: nat :: Get(after, p) == AnswerAfter(log, Get(answers, p), p, last)
    ensures Settled(log + [last], after)
  {
    forall p: nat ensures Get(after, p) == AnswerTo(log + [last], p) { AnswerSnoc(log, p, last); }
    hide AnswerTo, AnswerAfter;
  }

  function AnswerAfter(log: seq<Event>, before: Option<Response>, p: nat, last: Event): Option<Response> {
    if p < |log| then
      if Due(log, p) != Waiting then before
      else if last == Cancel then Some(Reject)
      else if last.Respond? && last.id == log[p].id then Some(last.response)
      else before
    else if p == |log| && last.Request? then
      if Cancel in log then Some(Reject) else AheadResponse(log, last.id)
    else None
  }

  lemma AnswerSnoc(log: seq<Event>, p: nat, last: Event)
    ensures AnswerTo(log + [last], p) == AnswerAfter(log, AnswerTo(log, p), p, last)
  {
    if p < |log| {
      DueSnoc(log, p, last);
      FateIs(log, p);
    } else if p == |log| && last.Request? {
      NewRequest(log, last.id);
    } else if p == |log| {
      FateIs(log + [last], p);
    }
    hide Due, Taken, Ahead;
  }

  function AheadAfter(log: seq<Event>, before: Option<Response>, id: string, last: Event, waits: bool): Option<Response> {
    if last == Request(id) then None
    else if last.Respond? && last.id == id then if waits then None else Some(last.response)
    else before
  }

  lemma KeptOneMore(log: seq<Event>, pending: map<string, nat>, preAnswers: map<string, Response>, last: Event, after: map<string, Response>)
    requires Parked(log, pending) && Kept(log, preAnswers)
    requires Cancel !in log && last != Cancel ==>
      forall id :: Get(after, id) == AheadAfter(log, Get(preAnswers, id), id, last, id in pending)
    ensures Kept(log + [last], after)
  {
    if Cancel !in log + [last] {
      assert Cancel !in log && last != Cancel;
      forall id ensures Get(after, id) == AheadResponse(log + [last], id) {
        AheadSnoc(log, id, last);
        assert (exists p: nat :: Waits(log, id, p)) <==> id in pending by { hide Waits; ParkedAt(log, pending, id); }
      }
    }
    hide Waits, Ahead;
  }

  lemma ParkedAt(log: seq<Event>, pending: map<string, nat>, id: string)
    requires Parked(log, pending)
    ensures (exists p: nat :: Waits(log, id, p)) <==> id in pending
    ensures id in pending ==> Waits(log, id, pending[id])
    ensures forall p: nat :: Waits(log, id, p) ==> id in pending && pending[id] == p
  {
    hide Waits;
    if id in pending { assert Get(pending, id) == Some(pending[id]); }
    if p: nat :| Waits(log, id, p) { assert Get(pending, id) == Some(p); }
  }

  lemma WaitsSnoc(log: seq<Event>, id: string, p: nat, last: Event)
    ensures Waits(log + [last], id, p) <==>
      if p == |log| then last == Request(id) && Cancel !in log && Ahead(log, id).None?
      else Waits(log, id, p) && Settles(id, last, |log|) == Waiting
  {
    if p < |log| {
      DueSnoc(log, p, last);
    } else if p == |log| && last == Request(id) {
      NewRequest(log, id);
    }
    hide Due, Settles, Ahead;
  }

  lemma NoneWaits(log: seq<Event>, id: string, p: nat)
    requires Cancel in log
    ensures !Waits(log, id, p)
  {
    if p < |log| && log[p] == Request(id) {
      FateIs(log, p);
      InParts(log, p, Cancel);
    }
    hide Due;
  }

  // ---- what the bridge keeps ----

  /** Which request waits for an id, by its position in the turn's log; the responses kept for requests to come; and
      the answers handed to the requests. */
  datatype Held = Held(pending: map<string, nat>, preAnswers: map<string, Response>, answers: map<nat, Response>)

  ghost predicate Tells(log: seq<Event>, h: Held) {
    && Parked(log, h.pending) && Settled(log, h.answers) && Kept(log, h.preAnswers)
    && forall id :: id in h.pending ==> id !in h.preAnswers
  }

  function Asked(h: Held, cancelled: bool, id: string, at: nat): Held {
    if cancelled then h.(answers := h.answers[at := Reject])
    else if id in h.preAnswers then h.(answers := h.answers[at := h.preAnswers[id]], preAnswers := h.preAnswers - {id})
    else h.(pending := h.pending[id := at])
  }

  function Responded(h: Held, id: string, response: Response): Held {
    if id in h.pending then h.(answers := h.answers[h.pending[id] := response], pending := h.pending - {id})
    else h.(preAnswers := h.preAnswers[id := response])
  }

  predicate Rejects(before: map<string, nat>, pending: map<string, nat>, p: nat) {
    exists id :: id in before && before[id] == p && id !in pending
  }

  lemma AskKeeps(log: seq<Event>, h: Held, id: string)
    requires Tells(log, h)
    ensures Tells(log + [Request(id)], Asked(h, Cancel in log, id, |log|))
  {
    var h' := Asked(h, Cancel in log, id, |log|);
    hide Waits, Due, Ahead, AnswerTo, Settles;
    assert Cancel !in log ==> Get(h.preAnswers, id) == AheadResponse(log, id);
    AskParks(log, h, id);
    forall p: nat ensures Get(h'.answers, p) == AnswerAfter(log, Get(h.answers, p), p, Request(id)) {
      assert Get(h.answers, p) == AnswerTo(log, p);
      NoneBeyond(log, p);
    }
    SettledOneMore(log, h.answers, Request(id), h'.answers);
    KeptOneMore(log, h.pending, h.preAnswers, Request(id), h'.preAnswers);
    hide Parked, Settled, Kept;
  }

  lemma NoneBeyond(log: seq<Event>, p: nat)
    ensures p >= |log| ==> AnswerTo(log, p) == None
  {
  }

  lemma AskParks(log: seq<Event>, h: Held, id: string)
    requires Tells(log, h)
    ensures Parked(log + [Request(id)], Asked(h, Cancel in log, id, |log|).pending)
  {
    var e, h' := Request(id), Asked(h, Cancel in log, id, |log|);
    hide Waits, Due, Ahead;
    assert Cancel !in log ==> Get(h.preAnswers, id) == AheadResponse(log, id);
    forall x, p: nat ensures Get(h'.pending, x) == Some(p) <==> Waits(log + [e], x, p) {
      WaitsSnoc(log, x, p, e);
      ParkedAt(log, h.pending, x);
      if Cancel in log { NoneWaits(log, x, p); }
      if p >= |log| { NoneWaitsBeyond(log, x, p); }
    }
  }

  lemma NoneWaitsBeyond(log: seq<Event>, id: string, p: nat)
    ensures p >= |log| ==> !Waits(log, id, p)
  {
  }

  lemma RespondKeeps(log: seq<Event>, h: Held, id: string, response: Response)
    requires Tells(log, h)
    ensures Tells(log + [Respond(id, response)], Responded(h, id, response))
  {
    var e, h' := Respond(id, response), Responded(h, id, response);
    hide Waits, Due, Ahead, AnswerTo;
    forall x, p: nat ensures Get(h'.pending, x) == Some(p) <==> Waits(log + [e], x, p) {
      WaitsSnoc(log, x, p, e);
      ParkedAt(log, h.pending, x);
      NoneWaitsBeyond(log, x, p);
    }
    forall p: nat ensures Get(h'.answers, p) == AnswerAfter(log, Get(h.answers, p), p, e) {
      assert Get(h.answers, p) == AnswerTo(log, p);
      NoneBeyond(log, p);
      ParkedAt(log, h.pending, id);
      NoneWaitsBeyond(log, id, p);
      if p < |log| { WaitingIsParked(log, p, id); }
    }
    SettledOneMore(log, h.answers, e, h'.answers);
    KeptOneMore(log, h.pending, h.preAnswers, e, h'.preAnswers);
    hide Parked, Settled, Kept;
  }

  lemma WaitingIsParked(log: seq<Event>, p: nat, id: string)
    requires p < |log|
    ensures Waits(log, id, p) <==> Due(log, p) == Waiting && log[p].Request? && log[p].id == id
    ensures Due(log, p) == Waiting ==> log[p].Request?
  {
    FateIs(log, p);
    hide Due;
  }

  lemma CancelKeeps(log: seq<Event>, h: Held, answers: map<nat, Response>)
    requires Tells(log, h)
    requires forall p: nat :: Get(answers, p) == if Rejects(h.pending, map[], p) then Some(Reject) else Get(h.answers, p)
    ensures Tells(log + [Cancel], h.(pending := map[], answers := answers))
  {
    hide Waits, Due, Ahead, AnswerTo, Rejects;
    forall x, p: nat ensures !Waits(log + [Cancel], x, p) { NoneWaits(log + [Cancel], x, p); }
    forall p: nat ensures Get(answers, p) == AnswerAfter(log, Get(h.answers, p), p, Cancel) {
      assert Get(h.answers, p) == AnswerTo(log, p);
      NoneBeyond(log, p);
      RejectsTheWaiting(log, h.pending, p);
    }
    SettledOneMore(log, h.answers, Cancel, answers);
    KeptOneMore(log, h.pending, h.preAnswers, Cancel, h.preAnswers);
    hide Settled, Kept;
  }

  lemma RejectsTheWaiting(log: seq<Event>, pending: map<string, nat>, p: nat)
    requires Parked(log, pending)
    ensures Rejects(pending, map[], p) <==> p < |log| && Due(log, p) == Waiting
  {
    hide Waits, Due;
    if p < |log| && Due(log, p) == Waiting {
      WaitingIsParked(log, p, "");
      WaitingIsParked(log, p, log[p].id);
      ParkedAt(log, pending, log[p].id);
    }
    if id :| id in pending && pending[id] == p {
      ParkedAt(log, pending, id);
      NoneWaitsBeyond(log, id, p);
      WaitingIsParked(log, p, id);
    }
  }

  class Bridge {
    var pending: map<string, nat>
    var preAnswers: map<string, Response>
    var cancelled: bool

    /** The answers handed to the requests, and the events, of this turn. */
    var answers: map<nat, Response>
    var log: seq<Event>

    function Holds(): Held
      reads this
    {
      Held(pending, preAnswers, answers)
    }

    ghost predicate Valid()
      reads this
    {
      (cancelled <==> Cancel in log) && Tells(log, Holds())
    }

    constructor ()
      ensures Valid() && log == []
    {
      pending, preAnswers, cancelled, answers, log := map[], map[], false, map[], [];
    }

    /** A new turn forgets everything of the one before. */
    method StartTurn()
      modifies this
      ensures Valid() && log == []
    {
      pending, preAnswers, cancelled, answers, log := map[], map[], false, map[], [];
    }

    method RequestPermission(id: string)
      requires Valid()
      modifies this
      ensures Valid() && log == old(log) + [Request(id)]
    {
      hide Tells;
      AskKeeps(log, Holds(), id);
      if cancelled {
        answers := answers[|log| := Reject];
      } else if id in preAnswers {
        answers := answers[|log| := preAnswers[id]];
        preAnswers := preAnswers - {id};
      } else {
        pending := pending[id := |log|];
      }
      log := log + [Request(id)];
    }

    method RespondPermission(id: string, response: Response)
      requires Valid()
      modifies this
      ensures Valid() && log == old(log) + [Respond(id, response)]
    {
      hide Tells;
      RespondKeeps(log, Holds(), id, response);
      if id in pending {
        answers := answers[pending[id] := response];
        pending := pending - {id};
      } else {
        preAnswers := preAnswers[id := response];
      }
      log := log + [Respond(id, response)];
    }

    method CancelTurn()
      requires Valid()
      modifies this
      ensures Valid() && log == old(log) + [Cancel] && pending == map[]
    {
      hide Tells, Rejects;
      cancelled := true;
      NoneRejected(pending);
      while pending.Keys != {}
        invariant forall id | id in pending :: id in old(pending) && pending[id] == old(pending)[id]
        invariant preAnswers == old(preAnswers) && log == old(log) && cancelled
        invariant forall p: nat :: Get(answers, p) == if Rejects(old(pending), pending, p) then Some(Reject) else Get(old(answers), p)
        decreases pending.Keys
      {
        var id :| id in pending.Keys;
        OneMoreRejected(old(pending), pending, id);
        ghost var before := answers;
        answers := answers[pending[id] := Reject];
        pending := pending - {id};
      }
      assert pending == map[];
      CancelKeeps(log, old(Holds()), answers);
      log := log + [Cancel];
    }

    /** Any turn, whatever is asked, answered and cancelled in it: each request has exactly the answer its events
        give it. */
    method Turn(events: seq<Event>)
      modifies this
      ensures Valid() && log == events
      ensures forall p: nat :: Get(answers, p) == AnswerTo(events, p)
    {
      StartTurn();
      hide Parked, Kept, AnswerTo;
      var i := 0;
      while i < |events|
        invariant 0 <= i <= |events| && Valid() && log == events[..i]
      {
        match events[i] {
          case Request(id) => RequestPermission(id);
          case Respond(id, response) => RespondPermission(id, response);
          case Cancel => CancelTurn();
        }
        assert events[..i + 1] == events[..i] + [events[i]];
        i := i + 1;
      }
      assert events[..i] == events;
    }
  }

  lemma NoneRejected(pending: map<string, nat>)
    ensures forall p: nat :: !Rejects(pending, pending, p)
  {
  }

  lemma OneMoreRejected(before: map<string, nat>, pending: map<string, nat>, id: string)
    requires id in pending && id in before && pending[id] == before[id]
    ensures forall p: nat :: Rejects(before, pending - {id}, p) <==> Rejects(before, pending, p) || p == pending[id]
  {
    forall p: nat | Rejects(before, pending, p) ensures Rejects(before, pending - {id}, p) {
      var x :| x in before && before[x] == p && x !in pending;
      assert x !in pending - {id};
    }
    assert id !in pending - {id};
  }

  // ---- the call behind the prompt ----

  /** A call that has to be asked about, floor calls always, runs exactly when its prompt's answer is no rejection; then
      the user gave that answer for its id in this turn, and had not cancelled before the prompt. */
  lemma AskedCallRuns(log: seq<Event>, p: nat, call: ToolCall, env: CallEnv, rules: Rules, policy: Policy)
    requires p < |log| && log[p] == Request(call.id) && AnswerTo(log, p) == Some(env.response)
    requires env.tool.Some? && !SomeMatch(rules.denies, call.name, env.resource)
    requires DecisionOf(call, env, rules, policy) == Ask || Floored(call, EffectiveTier(call, env.tool.value, env, policy), policy)
    ensures OutcomeOf(call, env, rules, policy).Ran? <==> env.response != Reject
    ensures OutcomeOf(call, env, rules, policy).Ran? ==> Respond(call.id, env.response) in log && Cancel !in log[..p]
  {
    AnswerIsTheirs(log, p);
    assert Cancel in log[..p] ==> AnswerTo(log, p) == Some(Reject);
    hide AnswerTo, EffectiveTier, SomeMatch;
  }
}
