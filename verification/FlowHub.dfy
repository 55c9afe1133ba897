/** The per-flow subscriber sets behind the event stream. */
module FlowHub {

  /** Flow ids are only ever compared. */
  type FlowId = nat

  /** `current` names the set a flow's next subscriber joins; a handle keeps the set it joined, as the
      unsubscribe closure does. */
  datatype HubState = HubState(current: map<FlowId, nat>, members: map<nat, set<nat>>, nextSet: nat)
  datatype Handle = Handle(flowId: FlowId, joined: nat, listener: nat)

  function MembersOf(h: HubState, k: nat): set<nat> { if k in h.members then h.members[k] else {} }

  function Joined(h: HubState, flowId: FlowId, listener: nat): (r: (HubState, Handle)) {
    var k := if flowId in h.current then h.current[flowId] else h.nextSet;
    (HubState(h.current[flowId := k], h.members[k := MembersOf(h, k) + {listener}],
              if flowId in h.current then h.nextSet else h.nextSet + 1),
     Handle(flowId, k, listener))
  }

  function Left(h: HubState, u: Handle): HubState {
    var rest := MembersOf(h, u.joined) - {u.listener};
    HubState(if rest == {} then h.current - {u.flowId} else h.current, h.members[u.joined := rest], h.nextSet)
  }

  /** Whom a publish on this flow reaches. */
  function Reached(h: HubState, flowId: FlowId): set<nat> {
    if flowId in h.current then MembersOf(h, h.current[flowId]) else {}
  }

  function ListenersOf(live: set<Handle>, flowId: FlowId): set<nat> {
    set u | u in live && u.flowId == flowId :: u.listener
  }

  /** The hub agrees with the handles that are live: every set in use is exactly its flow's listeners. */
  ghost predicate Agrees(h: HubState, live: set<Handle>) {
    && Placed(h, live) && Exact(h, live) && Apart(h)
    && (forall k | k in h.members :: k < h.nextSet)
    && (forall u, v | u in live && v in live && u.listener == v.listener :: u == v)
  }

  ghost predicate Placed(h: HubState, live: set<Handle>) {
    forall u | u in live :: u.flowId in h.current && h.current[u.flowId] == u.joined
  }

  ghost predicate Exact(h: HubState, live: set<Handle>) {
    forall f | f in h.current :: h.current[f] < h.nextSet && MembersOf(h, h.current[f]) == ListenersOf(live, f)
  }

  ghost predicate Apart(h: HubState) {
    forall f, g | f in h.current && g in h.current && f != g :: h.current[f] != h.current[g]
  }

  /** A publish reaches exactly the live listeners of its own flow. */
  lemma PublishReachesItsFlow(h: HubState, live: set<Handle>, flowId: FlowId)
    requires Agrees(h, live)
    ensures Reached(h, flowId) == ListenersOf(live, flowId)
  {
    if flowId !in h.current {
      assert forall u | u in live :: u.flowId != flowId;
    }
  }

  lemma SubscribingAgrees(h: HubState, live: set<Handle>, flowId: FlowId, listener: nat)
    requires Agrees(h, live) && forall u | u in live :: u.listener != listener
    ensures Agrees(Joined(h, flowId, listener).0, live + {Joined(h, flowId, listener).1})
  {
    SubscribedExact(h, live, flowId, listener);
    SubscribedPlaced(h, live, flowId, listener);
    hide Placed, Exact, Apart, MembersOf;
  }

  lemma SubscribedPlaced(h: HubState, live: set<Handle>, flowId: FlowId, listener: nat)
    requires Agrees(h, live)
    ensures Placed(Joined(h, flowId, listener).0, live + {Joined(h, flowId, listener).1})
    ensures Apart(Joined(h, flowId, listener).0)
  {
    hide MembersOf, ListenersOf;
    assert forall f | f in h.current :: h.current[f] < h.nextSet;
    hide Exact;
  }

  lemma SubscribedExact(h: HubState, live: set<Handle>, flowId: FlowId, listener: nat)
    requires Agrees(h, live)
    ensures Exact(Joined(h, flowId, listener).0, live + {Joined(h, flowId, listener).1})
  {
    var h', u := Joined(h, flowId, listener).0, Joined(h, flowId, listener).1;
    PublishReachesItsFlow(h, live, flowId);
    NewListener(live, u);
    assert MembersOf(h, u.joined) == ListenersOf(live, flowId);
    hide ListenersOf, Placed;
    forall f | f in h'.current
      ensures h'.current[f] < h'.nextSet && MembersOf(h', h'.current[f]) == ListenersOf(live + {u}, f)
    {
      if f != flowId { assert h'.current[f] == h.current[f] != u.joined; }
    }
  }

  lemma NewListener(live: set<Handle>, u: Handle)
    ensures ListenersOf(live + {u}, u.flowId) == ListenersOf(live, u.flowId) + {u.listener}
    ensures forall f | f != u.flowId :: ListenersOf(live + {u}, f) == ListenersOf(live, f)
  {
    assert u in live + {u};
  }

  /** Used once, a handle takes away its own listener and nothing else. */
  lemma UnsubscribingAgrees(h: HubState, live: set<Handle>, u: Handle)
    requires Agrees(h, live) && u in live
    ensures Agrees(Left(h, u), live - {u})
  {
    var h', live' := Left(h, u), live - {u};
    assert u.flowId in h.current && h.current[u.flowId] == u.joined;
    forall v | v in live' ensures v.flowId in h'.current && h'.current[v.flowId] == v.joined {
      if v.flowId == u.flowId {
        assert v.listener in ListenersOf(live, u.flowId) && v.listener != u.listener;
        assert v.listener in MembersOf(h, u.joined) - {u.listener};
      }
    }
    forall f | f in h'.current ensures h'.current[f] < h'.nextSet && MembersOf(h', h'.current[f]) == ListenersOf(live', f) {
      if f == u.flowId {
        assert ListenersOf(live', f) == ListenersOf(live, f) - {u.listener};
      } else {
        assert ListenersOf(live', f) == ListenersOf(live, f);
      }
    }
  }

  // ---- a handle used again ----

  /** These handles were used: the listeners they hold are in the sets they joined no more. */
  ghost predicate Gone(h: HubState, spent: set<Handle>) {
    forall u | u in spent :: u.listener !in MembersOf(h, u.joined)
  }

  /** The set the handle holds is empty by now, and later subscribers of its flow are in another. */
  predicate CutsOff(h: HubState, u: Handle) {
    MembersOf(h, u.joined) == {} && Reached(h, u.flowId) != {}
  }

  /** Used again, a handle changes whom a publish reaches exactly then: the emptied set it still holds takes away the
      flow's new set, with everyone in it. */
  lemma SecondUseIsHarmlessExactlyWhen(h: HubState, u: Handle)
    requires u.listener !in MembersOf(h, u.joined)
    ensures (forall f :: Reached(Left(h, u), f) == Reached(h, f)) <==> !CutsOff(h, u)
    ensures CutsOff(h, u) ==> Reached(Left(h, u), u.flowId) == {}
  {
    var h' := Left(h, u);
    assert MembersOf(h, u.joined) - {u.listener} == MembersOf(h, u.joined);
    assert forall k :: MembersOf(h', k) == MembersOf(h, k);
    if CutsOff(h, u) { assert Reached(h', u.flowId) == {}; }
  }

  /** It happens: one subscriber leaves, the next one of the flow arrives, and the first leaves again. */
  lemma LatecomerIsCutOff(h: HubState, live: set<Handle>, flowId: FlowId, a: nat, b: nat)
    requires Agrees(h, live) && flowId !in h.current && a != b && forall v | v in live :: v.listener != a && v.listener != b
    ensures var (h1, u) := Joined(h, flowId, a);
      var (h2, v) := Joined(Left(h1, u), flowId, b);
      Agrees(h2, live + {v}) && Gone(h2, {u}) && CutsOff(h2, u)
  {
    var (h1, u) := Joined(h, flowId, a);
    SubscribingAgrees(h, live, flowId, a);
    assert u in live + {u} && u !in live && live + {u} - {u} == live;
    UnsubscribingAgrees(h1, live + {u}, u);
    var h' := Left(h1, u);
    assert MembersOf(h1, u.joined) == {a} by { NewSetIsEmpty(h, live, flowId); }
    assert {a} - {a} == {};
    hide Agrees;
    SubscribingAgrees(h', live, flowId, b);
  }

  lemma NewSetIsEmpty(h: HubState, live: set<Handle>, flowId: FlowId)
    requires Agrees(h, live)
    ensures MembersOf(h, h.nextSet) == {}
  {
  }

  lemma SecondUseAgrees(h: HubState, live: set<Handle>, u: Handle)
    requires Agrees(h, live) && u.listener !in MembersOf(h, u.joined) && !CutsOff(h, u)
    requires u.joined in h.members
    ensures Agrees(Left(h, u), live)
  {
    var h' := Left(h, u);
    assert MembersOf(h, u.joined) - {u.listener} == MembersOf(h, u.joined);
    assert forall k :: MembersOf(h', k) == MembersOf(h, k);
    PublishReachesItsFlow(h, live, u.flowId);
    forall v | v in live ensures v.flowId in h'.current && h'.current[v.flowId] == v.joined {
      if v.flowId == u.flowId { assert v.listener in ListenersOf(live, u.flowId); }
    }
  }

  class Hub {
    var state: HubState

    /** The handles given out: not used yet, and used. */
    ghost var live: set<Handle>
    ghost var spent: set<Handle>

    ghost predicate Valid()
      reads this
    {
      Agrees(state, live) && Gone(state, spent) && forall u | u in spent :: u.joined in state.members
    }

    constructor ()
      ensures Valid() && live == {} && spent == {}
    {
      state, live, spent := HubState(map[], map[], 0), {}, {};
    }

    /** Each connection brings a listener of its own. */
    method Subscribe(flowId: FlowId, listener: nat) returns (u: Handle)
      requires Valid() && forall v | v in live + spent :: v.listener != listener
      modifies this
      ensures Valid() && live == old(live) + {u} && spent == old(spent)
      ensures u.flowId == flowId && u.listener == listener
    {
      hide Agrees, Reached;
      SubscribingAgrees(state, live, flowId, listener) by { assert forall v | v in live :: v in live + spent; }
      assert forall v | v in spent :: v in live + spent;
      var (next, handle) := Joined(state, flowId, listener);
      state, u := next, handle;
      live := live + {u};
    }

    method Unsubscribe(u: Handle)
      requires Valid() && u in live
      modifies this
      ensures Valid() && live == old(live) - {u} && spent == old(spent) + {u}
    {
      UnsubscribingAgrees(state, live, u);
      assert u.joined in state.members;
      hide Agrees, Reached;
      state, live, spent := Left(state, u), live - {u}, spent + {u};
    }

    /** Nothing changes for anyone, or the flow's later subscribers are all cut off. */
    method UnsubscribeAgain(u: Handle)
      requires Valid() && u in spent
      modifies this
      ensures live == old(live) && spent == old(spent)
      ensures Valid() <==> !CutsOff(old(state), u)
      ensures forall f :: Reached(state, f) == if f == u.flowId && CutsOff(old(state), u) then {} else Reached(old(state), f)
    {
      SecondUseIsHarmlessExactlyWhen(state, u);
      if CutsOff(state, u) {
        CutOffDisagrees(state, live, u);
      } else {
        SecondUseAgrees(state, live, u);
      }
      state := Left(state, u);
    }

    method Publish(flowId: FlowId) returns (reached: set<nat>)
      requires Valid()
      ensures reached == ListenersOf(live, flowId)
    {
      PublishReachesItsFlow(state, live, flowId);
      reached := Reached(state, flowId);
    }
  }

  lemma CutOffDisagrees(h: HubState, live: set<Handle>, u: Handle)
    requires Agrees(h, live) && CutsOff(h, u)
    ensures !Agrees(Left(h, u), live)
    ensures forall f | f != u.flowId :: Reached(Left(h, u), f) == Reached(h, f)
  {
    PublishReachesItsFlow(h, live, u.flowId);
    assert MembersOf(h, u.joined) - {u.listener} == {};
    assert forall k :: MembersOf(Left(h, u), k) == MembersOf(h, k);
    var v :| v in live && v.flowId == u.flowId;
    assert v.flowId !in Left(h, u).current;
  }
}
