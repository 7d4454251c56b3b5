/** The connection's shared state, updated in place: the id counters, the map of waiting requests and
    the one-shot channels of their callers (crates/codex-bridge/src/external.rs). */
module RpcClient {
  import opened RpcProtocol

  /** The process-wide counter behind `start_turn` and `interrupt`. */
  class TurnCounter {
    var next: int

    constructor ()
      ensures next == FIRST_TURN_ID
    {
      next := FIRST_TURN_ID;
    }

    method NextRequestId() returns (id: int)
      modifies this
      ensures id == old(next) && next == id + 1
    {
      id := next;
      next := next + 1;
    }
  }

  class AppServerClient {
    var nextRequestId: int
    var pending: map<int, nat>
    /** What has been sent to each caller, by waiter number. */
    var channels: seq<seq<Completion>>
    ghost var model: State

    static ghost predicate ChannelsMatch(channels: seq<seq<Completion>>, waiters: seq<Waiter>) {
      && |channels| == |waiters|
      && forall w :: 0 <= w < |channels| ==>
           channels[w] == if waiters[w].completion.Some? then [waiters[w].completion.value] else []
    }

    /** The real fields carry the protocol state `s`. */
    static ghost predicate Carries(nextRequestId: int, pending: map<int, nat>, channels: seq<seq<Completion>>,
                                   s: State) {
      nextRequestId == s.nextLaunchId && pending == s.waiting && ChannelsMatch(channels, s.waiters)
    }

    ghost predicate Valid()
      reads this
    {
      Inv(model) && Carries(nextRequestId, pending, channels, model)
    }

    constructor ()
      ensures Valid() && model == INITIAL
    {
      nextRequestId, pending, channels, model := FIRST_LAUNCH_ID, map[], [], INITIAL;
    }

    /** A request of `launch`, up to its write. */
    method LaunchRequest() returns (id: int)
      requires Valid() && nextRequestId < FIRST_LAUNCH_ID + LAUNCH_REQUESTS
      modifies this
      ensures Valid() && model == Next(old(model), Step.LaunchRequest)
      ensures id == old(nextRequestId) && id !in old(pending) && pending == old(pending)[id := |old(channels)|]
    {
      RegisterKeepsInv(model, Step.LaunchRequest);
      id := nextRequestId;
      assert id !in pending;
      hide IdsInv, WaitingInv, SentInv;
      nextRequestId := nextRequestId + 1;
      pending := pending[id := |channels|];
      channels := channels + [[]];
      model := Next(model, Step.LaunchRequest);
    }

    /** A request of `start_turn` or `interrupt`, up to its write. Other connections may have used the
        counter in the meantime. */
    method TurnRequest(counter: TurnCounter) returns (id: int)
      requires Valid() && model.nextTurnId <= counter.next
      modifies this, counter
      ensures Valid() && model == Next(old(model), Step.TurnRequest(old(counter.next) - old(model.nextTurnId)))
      ensures model.nextTurnId <= counter.next
      ensures id == old(counter.next) && id !in old(pending) && pending == old(pending)[id := |old(channels)|]
    {
      TurnCarries(nextRequestId, pending, channels, model, counter.next - model.nextTurnId);
      hide Inv, Carries, Next;
      ghost var step := Step.TurnRequest(counter.next - model.nextTurnId);
      id := counter.NextRequestId();
      pending := pending[id := |channels|];
      channels := channels + [[]];
      model := Next(model, step);
    }

    static lemma TurnCarries(nextRequestId: int, pending: map<int, nat>, channels: seq<seq<Completion>>, s: State,
                             others: nat)
      requires Inv(s) && Carries(nextRequestId, pending, channels, s)
      ensures var id, t := s.nextTurnId + others, Next(s, Step.TurnRequest(others));
        && Inv(t) && Carries(nextRequestId, pending[id := |channels|], channels + [[]], t)
        && id !in pending && t.nextTurnId == id + 1
    {
      RegisterKeepsInv(s, Step.TurnRequest(others));
      assert s.nextTurnId + others !in pending by { hide SentInv; }
      hide IdsInv, WaitingInv, SentInv, Inv;
    }

    /** The write of a request ends; a failed one takes its id out of the map. */
    method RequestWritten(id: int, ghost waiter: nat, ok: bool)
      requires Valid() && waiter < |model.waiters| && model.waiters[waiter].id == id
      requires model.waiters[waiter].write.Writing?
      modifies this
      ensures Valid() && model == Next(old(model), WriteEnds(waiter, ok))
      ensures pending == if ok then old(pending) else old(pending) - {id}
    {
      EndWriteKeepsInv(model, waiter, ok);
      hide IdsInv, WaitingInv, SentInv;
      if !ok { pending := pending - {id}; }
      model := Next(model, WriteEnds(waiter, ok));
    }

    /** `handle_jsonrpc_message` for a response. */
    method HandleResponse(id: int, payload: string)
      requires Valid() && model.reading
      modifies this
      ensures Valid() && model == Next(old(model), ResponseArrives(id, payload))
      ensures id !in old(pending) ==> channels == old(channels) && pending == old(pending)
      ensures id in old(pending) ==>
        pending == old(pending) - {id} && old(pending)[id] < |old(channels)|
        && channels == old(channels)[old(pending)[id] := [Replied(id, payload)]]
    {
      ResponseCarries(nextRequestId, pending, channels, model, id, payload);
      hide Inv, Carries, Next;
      if id in pending {
        var waiter := pending[id];
        pending := pending - {id};
        channels := channels[waiter := channels[waiter] + [Replied(id, payload)]];
      }
      model := Next(model, ResponseArrives(id, payload));
    }

    static lemma ResponseCarries(nextRequestId: int, pending: map<int, nat>, channels: seq<seq<Completion>>, s: State,
                                 id: int, payload: string)
      requires Inv(s) && Carries(nextRequestId, pending, channels, s) && s.reading
      ensures var t := Next(s, ResponseArrives(id, payload));
        && Inv(t)
        && (id !in pending ==> Carries(nextRequestId, pending, channels, t))
        && (id in pending ==> pending[id] < |channels| && channels[pending[id]] == [])
        && (id in pending ==>
              Carries(nextRequestId, pending - {id}, channels[pending[id] := [Replied(id, payload)]], t))
    {
      RespondKeepsInv(s, id, payload);
      hide IdsInv, SentInv;
      if id in pending { assert pending[id] < |channels| && channels[pending[id]] == []; }
      hide WaitingInv;
    }

    /** `fail_pending`: drain the map, telling each waiter. */
    method FailPending()
      requires Valid() && model.reading
      modifies this
      ensures Valid() && model == Next(old(model), StdoutCloses) && pending == map[]
    {
      NextKeepsInv(model, StdoutCloses);
      CanDrain(nextRequestId, pending, channels, model);
      var drained := Drain(pending, channels);
      DrainedCarries(nextRequestId, pending, channels, model, drained);
      hide Inv, Carries, Next, HeldBy, DistinctWaiters;
      pending, channels := map[], drained;
      model := Next(model, StdoutCloses);
    }

    static lemma CanDrain(nextRequestId: int, pending: map<int, nat>, channels: seq<seq<Completion>>, s: State)
      requires Inv(s) && Carries(nextRequestId, pending, channels, s)
      ensures DistinctWaiters(pending, |channels|)
    {
      WaitersAreOpen(s);
      hide Inv, DistinctWaiters;
    }

    static lemma DrainedCarries(nextRequestId: int, pending: map<int, nat>, channels: seq<seq<Completion>>, s: State,
                                drained: seq<seq<Completion>>)
      requires Inv(s) && Carries(nextRequestId, pending, channels, s) && s.reading && |drained| == |channels|
      requires forall w :: 0 <= w < |drained| ==>
        drained[w] == channels[w] + if w in HeldBy(pending) then [StreamClosed] else []
      ensures Carries(nextRequestId, map[], drained, Next(s, StdoutCloses))
    {
      WaitersAreOpen(s);
      hide Inv, HeldBy, DistinctWaiters, RpcProtocol.FailPending;
      DrainedMatch(drained, channels, s);
    }

    static lemma WaitersAreOpen(s: State)
      requires Inv(s)
      ensures DistinctWaiters(s.waiting, |s.waiters|)
      ensures forall w :: w in HeldBy(s.waiting) ==> w < |s.waiters| && s.waiters[w].completion.None?
    {
      HeldAreWaiting(s);
      hide IdsInv, SentInv;
    }

    static lemma DrainedMatch(channels: seq<seq<Completion>>, before: seq<seq<Completion>>, s: State)
      requires ChannelsMatch(before, s.waiters) && |channels| == |before|
      requires forall w :: w in HeldBy(s.waiting) ==> w < |s.waiters| && s.waiters[w].completion.None?
      requires forall w :: 0 <= w < |channels| ==>
        channels[w] == before[w] + if w in HeldBy(s.waiting) then [StreamClosed] else []
      ensures ChannelsMatch(channels, RpcProtocol.FailPending(s).waiters)
      ensures RpcProtocol.FailPending(s).waiting == map[] && RpcProtocol.FailPending(s).nextLaunchId == s.nextLaunchId
    {
      hide HeldBy;
    }

    /** Sends `StreamClosed` down the channel of every waiter of the map, in whatever order. */
    static method Drain(pending: map<int, nat>, channels: seq<seq<Completion>>) returns (told: seq<seq<Completion>>)
      requires DistinctWaiters(pending, |channels|)
      ensures |told| == |channels|
      ensures forall w :: 0 <= w < |told| ==>
        told[w] == channels[w] + if w in HeldBy(pending) then [StreamClosed] else []
    {
      told := channels;
      var rest := pending;
      while |rest| != 0
        invariant DistinctWaiters(rest, |channels|) && |told| == |channels| && HeldBy(rest) <= HeldBy(pending)
        invariant forall w :: 0 <= w < |told| ==>
          told[w] == channels[w] + if w in HeldBy(pending) - HeldBy(rest) then [StreamClosed] else []
        decreases |rest|
      {
        assert |rest.Items| != 0;
        var entry :| entry in rest.Items;
        var (id, waiter) := entry;
        HeldWithout(rest, id, |channels|);
        assert waiter in HeldBy(rest);
        told := told[waiter := told[waiter] + [StreamClosed]];
        rest := rest - {id};
      }
    }

    static ghost predicate DistinctWaiters(entries: map<int, nat>, n: nat) {
      && (forall id :: id in entries ==> entries[id] < n)
      && forall id, other :: id in entries && other in entries && id != other ==> entries[id] != entries[other]
    }

    static lemma HeldWithout(entries: map<int, nat>, id: int, n: nat)
      requires DistinctWaiters(entries, n) && id in entries
      ensures HeldBy(entries - {id}) == HeldBy(entries) - {entries[id]} && DistinctWaiters(entries - {id}, n)
    {
      forall w | w in HeldBy(entries) && w != entries[id] ensures w in HeldBy(entries - {id}) {
        var other :| other in entries && entries[other] == w;
        assert other in entries - {id};
      }
    }
  }
}
