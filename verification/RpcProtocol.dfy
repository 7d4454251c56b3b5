/** The client half of the JSON-RPC connection: two id counters, the map of waiting requests, and the
    three ways a waiting request is completed (crates/codex-bridge/src/external.rs,
    crates/codex-bridge/src/lib.rs). */
module RpcProtocol {
  import opened Sequences

  const FIRST_LAUNCH_ID := 1
  const FIRST_TURN_ID := 100

  /** `launch` sends two requests on the per-connection counter: initialize, then thread start or resume. */
  const LAUNCH_REQUESTS := 2

  datatype Completion = Replied(responseId: int, payload: string) | StreamClosed

  datatype WriteState = Writing | Written | WriteFailed

  /** One call of `request_value`. */
  datatype Waiter = Waiter(id: int, write: WriteState, completion: Option<Completion>)

  /** `sent` counts the messages sent down each waiter's one-shot channel. */
  datatype State = State(nextLaunchId: int, nextTurnId: int, waiters: seq<Waiter>, waiting: map<int, nat>,
                         reading: bool, sent: multiset<nat>)

  const INITIAL := State(FIRST_LAUNCH_ID, FIRST_TURN_ID, [], map[], true, multiset{})

  datatype Step =
    | LaunchRequest
    | TurnRequest(otherConnections: nat)
    | WriteEnds(waiter: nat, ok: bool)
    | ResponseArrives(id: int, payload: string)
    | StdoutCloses

  /** `request_value` up to its write: the waiter is registered under its id. */
  function Register(s: State, id: int): State {
    s.(waiters := s.waiters + [Waiter(id, Writing, None)], waiting := s.waiting[id := |s.waiters|])
  }

  /** A failed write takes the request's id out of the map again. */
  function EndWrite(s: State, w: nat, ok: bool): State {
    if w >= |s.waiters| || !s.waiters[w].write.Writing? then s
    else if ok then s.(waiters := s.waiters[w := s.waiters[w].(write := Written)])
    else s.(waiters := s.waiters[w := s.waiters[w].(write := WriteFailed)], waiting := s.waiting - {s.waiters[w].id})
  }

  function Complete(s: State, w: nat, c: Completion): State {
    if w >= |s.waiters| then s
    else s.(waiters := s.waiters[w := s.waiters[w].(completion := Some(c))], sent := s.sent + multiset{w})
  }

  /** `handle_jsonrpc_message` on a response. */
  function Respond(s: State, id: int, payload: string): State {
    if !s.reading || id !in s.waiting then s
    else Complete(s, s.waiting[id], Replied(id, payload)).(waiting := s.waiting - {id})
  }

  /** The waiters whose channels the map holds. */
  function HeldBy(waiting: map<int, nat>): set<nat> { set id | id in waiting :: waiting[id] }

  /** `fail_pending`: every waiting request is told the stream closed, and the map is emptied. */
  function FailPending(s: State): State {
    s.(waiting := map[],
       waiters := seq(|s.waiters|, i requires 0 <= i < |s.waiters| =>
         if i in HeldBy(s.waiting) then s.waiters[i].(completion := Some(StreamClosed)) else s.waiters[i]),
       sent := s.sent + multiset(HeldBy(s.waiting)))
  }

  function Next(s: State, step: Step): State {
    match step
    case LaunchRequest =>
      if s.nextLaunchId < FIRST_LAUNCH_ID + LAUNCH_REQUESTS
      then Register(s, s.nextLaunchId).(nextLaunchId := s.nextLaunchId + 1) else s
    case TurnRequest(others) =>
      var id := s.nextTurnId + others;
      Register(s, id).(nextTurnId := id + 1)
    case WriteEnds(w, ok) => EndWrite(s, w, ok)
    case ResponseArrives(id, payload) => Respond(s, id, payload)
    case StdoutCloses => if s.reading then FailPending(s).(reading := false) else s
  }

  function Run(s: State, steps: seq<Step>): State
    decreases |steps|
  {
    if steps == [] then s else Run(Next(s, steps[0]), steps[1..])
  }

  // ---------------------------------------------------------------- invariant

  /** Issued ids are below their counter, and no two waiters share one. */
  ghost predicate IdsInv(s: State) {
    && FIRST_LAUNCH_ID <= s.nextLaunchId <= FIRST_LAUNCH_ID + LAUNCH_REQUESTS && FIRST_TURN_ID <= s.nextTurnId
    && (forall w :: 0 <= w < |s.waiters| ==>
          FIRST_LAUNCH_ID <= s.waiters[w].id < s.nextLaunchId || FIRST_TURN_ID <= s.waiters[w].id < s.nextTurnId)
    && (forall v, w :: 0 <= v < w < |s.waiters| ==> s.waiters[v].id != s.waiters[w].id)
  }

  predicate IsWaiting(s: State, w: nat)
    requires w < |s.waiters|
  {
    s.waiters[w].completion.None? && !s.waiters[w].write.WriteFailed?
  }

  /** The map holds exactly the requests neither completed nor failed. */
  ghost predicate WaitingInv(s: State) {
    && (forall id :: id in s.waiting ==>
          s.waiting[id] < |s.waiters| && s.waiters[s.waiting[id]].id == id && IsWaiting(s, s.waiting[id]))
    && (forall w :: 0 <= w < |s.waiters| && IsWaiting(s, w) ==>
          s.waiters[w].id in s.waiting && s.waiting[s.waiters[w].id] == w)
  }

  /** One message per completed waiter, none for the others, and a reply only under the waiter's id. */
  ghost predicate SentInv(s: State) {
    && (forall w: nat :: s.sent[w] == if w < |s.waiters| && s.waiters[w].completion.Some? then 1 else 0)
    && (forall w :: 0 <= w < |s.waiters| && s.waiters[w].completion.Some? && s.waiters[w].completion.value.Replied? ==>
          s.waiters[w].completion.value.responseId == s.waiters[w].id)
  }

  ghost predicate Inv(s: State) { IdsInv(s) && WaitingInv(s) && SentInv(s) }

  /** The waiters held by the map are the waiting ones. */
  lemma HeldAreWaiting(s: State)
    requires WaitingInv(s)
    ensures forall w: nat :: w in HeldBy(s.waiting) <==> w < |s.waiters| && IsWaiting(s, w)
  {
    forall w: nat | w in HeldBy(s.waiting) ensures w < |s.waiters| && IsWaiting(s, w) {
      var id :| id in s.waiting && s.waiting[id] == w;
    }
    forall w: nat | w < |s.waiters| && IsWaiting(s, w) ensures w in HeldBy(s.waiting) {
      assert s.waiting[s.waiters[w].id] == w;
    }
  }

  lemma RegisterKeepsWaiting(s: State, id: int)
    requires WaitingInv(s) && SentInv(s) && forall w :: 0 <= w < |s.waiters| ==> s.waiters[w].id != id
    ensures WaitingInv(Register(s, id)) && SentInv(Register(s, id))
  {
    var t := Register(s, id);
    assert id !in s.waiting;
    assert s.sent[|s.waiters|] == 0;
  }

  lemma RegisterKeepsInv(s: State, step: Step)
    requires Inv(s) && (step.LaunchRequest? || step.TurnRequest?)
    ensures Inv(Next(s, step))
  {
    var t := Next(s, step);
    var id := if step.LaunchRequest? then s.nextLaunchId else s.nextTurnId + step.otherConnections;
    if t != s {
      assert t.waiters == s.waiters + [Waiter(id, Writing, None)];
      RegisterKeepsWaiting(s, id);
      hide SentInv;
      assert WaitingInv(t) && SentInv(t) by { SameWaiting(Register(s, id), t); }
      hide WaitingInv;
      assert IdsInv(t);
    }
  }

  lemma SameWaiting(s: State, t: State)
    requires t.waiters == s.waiters && t.waiting == s.waiting && t.sent == s.sent && WaitingInv(s) && SentInv(s)
    ensures WaitingInv(t) && SentInv(t)
  {}

  lemma EndWriteKeepsSent(s: State, w: nat, ok: bool)
    requires Inv(s)
    ensures IdsInv(EndWrite(s, w, ok)) && SentInv(EndWrite(s, w, ok))
  {
    hide WaitingInv;
  }

  lemma EndWriteKeepsWaiting(s: State, w: nat, ok: bool)
    requires Inv(s)
    ensures WaitingInv(EndWrite(s, w, ok))
  {
    hide SentInv;
  }

  lemma EndWriteKeepsInv(s: State, w: nat, ok: bool)
    requires Inv(s)
    ensures Inv(EndWrite(s, w, ok))
  {
    EndWriteKeepsSent(s, w, ok);
    EndWriteKeepsWaiting(s, w, ok);
  }

  lemma RespondKeepsSent(s: State, id: int, payload: string)
    requires Inv(s)
    ensures IdsInv(Respond(s, id, payload)) && SentInv(Respond(s, id, payload))
  {}

  lemma RespondKeepsWaiting(s: State, id: int, payload: string)
    requires Inv(s)
    ensures WaitingInv(Respond(s, id, payload))
  {
    hide SentInv;
  }

  lemma RespondKeepsInv(s: State, id: int, payload: string)
    requires Inv(s)
    ensures Inv(Respond(s, id, payload))
  {
    RespondKeepsSent(s, id, payload);
    RespondKeepsWaiting(s, id, payload);
  }

  lemma FailPendingKeepsInv(s: State)
    requires Inv(s)
    ensures Inv(FailPending(s))
  {
    var t := FailPending(s);
    HeldAreWaiting(s);
    assert IdsInv(t);
    assert SentInv(t);
    assert WaitingInv(t);
  }

  lemma NextKeepsInv(s: State, step: Step)
    requires Inv(s)
    ensures Inv(Next(s, step))
  {
    match step
    case LaunchRequest => RegisterKeepsInv(s, step);
    case TurnRequest(_) => RegisterKeepsInv(s, step);
    case WriteEnds(w, ok) => EndWriteKeepsInv(s, w, ok);
    case ResponseArrives(id, payload) => RespondKeepsInv(s, id, payload);
    case StdoutCloses =>
      FailPendingKeepsInv(s);
      hide FailPending;
  }

  lemma {:induction false} RunKeepsInv(s: State, steps: seq<Step>)
    requires Inv(s)
    ensures Inv(Run(s, steps))
    decreases |steps|
  {
    hide Inv, Next;
    if steps == [] {
    } else {
      NextKeepsInv(s, steps[0]);
      RunKeepsInv(Next(s, steps[0]), steps[1..]);
    }
  }

  // ---------------------------------------------------------------- what runs guarantee

  /** In every run: request ids never collide although two counters issue them, so no registration
      displaces a waiter; each waiter is sent at most one message, and a reply only if it carries the
      waiter's own id; a waiter is gone from the map exactly when it was completed or its write failed. */
  lemma EachWaiterCompletesOnce(steps: seq<Step>)
    ensures var s := Run(INITIAL, steps);
      && (forall v, w :: 0 <= v < w < |s.waiters| ==> s.waiters[v].id != s.waiters[w].id)
      && (forall w: nat :: s.sent[w] <= 1)
      && (forall w ::
            0 <= w < |s.waiters| && s.waiters[w].completion.Some? && s.waiters[w].completion.value.Replied? ==>
            s.waiters[w].completion.value.responseId == s.waiters[w].id)
      && (forall w :: 0 <= w < |s.waiters| ==>
            ((s.waiters[w].id in s.waiting && s.waiting[s.waiters[w].id] == w) <==>
             s.waiters[w].completion.None? && !s.waiters[w].write.WriteFailed?))
  {
    RunKeepsInv(INITIAL, steps);
  }

  /** What each event changes, and that it changes nothing else. A request joins the waiters and the map under its
      id; a failed write takes its id out; a reply completes the waiter of its id and no other; what comes too late
      or for no waiter changes nothing. */
  lemma NextExactly(s: State, step: Step)
    requires Inv(s)
    ensures match step
      case LaunchRequest =>
        Next(s, step) ==
          if s.nextLaunchId <= 2
          then s.(nextLaunchId := s.nextLaunchId + 1, waiters := s.waiters + [Waiter(s.nextLaunchId, Writing, None)],
                  waiting := s.waiting[s.nextLaunchId := |s.waiters|])
          else s
      case TurnRequest(others) =>
        var id := s.nextTurnId + others;
        Next(s, step) == s.(nextTurnId := id + 1, waiters := s.waiters + [Waiter(id, Writing, None)],
                            waiting := s.waiting[id := |s.waiters|])
      case WriteEnds(w, ok) =>
        Next(s, step) ==
          if w < |s.waiters| && s.waiters[w].write == Writing
          then s.(waiters := s.waiters[w := Waiter(s.waiters[w].id, if ok then Written else WriteFailed,
                                                   s.waiters[w].completion)],
                  waiting := if ok then s.waiting else s.waiting - {s.waiters[w].id})
          else s
      case ResponseArrives(id, payload) =>
        if s.reading && id in s.waiting
        then
          var w := s.waiting[id];
          && w < |s.waiters| && s.waiters[w].id == id
          && Next(s, step) == s.(
            waiters := s.waiters[w := Waiter(id, s.waiters[w].write, Some(Replied(id, payload)))],
            waiting := s.waiting - {id}, sent := s.sent + multiset{w})
        else Next(s, step) == s
      case StdoutCloses =>
        && !Next(s, step).reading && Next(s, step).nextTurnId == s.nextTurnId
        && Next(s, step).nextLaunchId == s.nextLaunchId && |Next(s, step).waiters| == |s.waiters|
        && (!s.reading ==> Next(s, step) == s)
  {
    hide IdsInv, SentInv;
  }

  /** The ids of the requests made before `s`, in order. */
  function Ids(waiters: seq<Waiter>): seq<int> { seq(|waiters|, i requires 0 <= i < |waiters| => waiters[i].id) }

  /** In every run the two requests of the launch are numbered 1 and 2, in that order, and those of the turns upwards
      from 100: the counter is shared with other connections, so some numbers may be left out. */
  lemma {:induction false} IdsAreInOrder(steps: seq<Step>)
    ensures var ids := Ids(Run(INITIAL, steps).waiters);
      && OfLaunch(ids) <= [1, 2]
      && (forall i :: 0 <= i < |ids| ==> ids[i] <= 2 || ids[i] >= 100)
      && (forall i, j :: 0 <= i < j < |ids| && ids[i] >= 100 && ids[j] >= 100 ==> ids[i] < ids[j])
  {
    IdsFrom(INITIAL, steps);
  }

  /** Those below the turns' first number. */
  function OfLaunch(ids: seq<int>): seq<int> { Filter(ids, id => id < 100) }

  ghost predicate InOrder(ids: seq<int>, nextLaunchId: int, nextTurnId: int) {
    && (nextLaunchId == 1 || nextLaunchId == 2 || nextLaunchId == 3)
    && OfLaunch(ids) == [1, 2][..nextLaunchId - 1] && nextTurnId >= 100
    && (forall i :: 0 <= i < |ids| ==> ids[i] <= 2 || 100 <= ids[i] < nextTurnId)
    && (forall i, j :: 0 <= i < j < |ids| && ids[i] >= 100 && ids[j] >= 100 ==> ids[i] < ids[j])
  }

  ghost predicate Ordered(s: State) { InOrder(Ids(s.waiters), s.nextLaunchId, s.nextTurnId) }

  lemma {:induction false} IdsFrom(s: State, steps: seq<Step>)
    requires Inv(s) && Ordered(s)
    ensures Ordered(Run(s, steps))
    decreases |steps|
  {
    hide Inv, Ordered, Next;
    if steps == [] {
    } else {
      NextKeepsInv(s, steps[0]);
      NextKeepsOrder(s, steps[0]);
      IdsFrom(Next(s, steps[0]), steps[1..]);
    }
  }

  lemma NextKeepsOrder(s: State, step: Step)
    requires Inv(s) && Ordered(s)
    ensures Ordered(Next(s, step))
  {
    var ids := Ids(s.waiters);
    match step
    case LaunchRequest =>
      if s.nextLaunchId <= 2 {
        assert Ids(Next(s, step).waiters) == ids + [s.nextLaunchId];
        hide Next, Ids, Inv;
        OneMoreLaunch(ids, s.nextLaunchId, s.nextTurnId);
      }
    case TurnRequest(others) =>
      assert Ids(Next(s, step).waiters) == ids + [s.nextTurnId + others];
      hide Ids, Inv;
      OneMoreTurn(ids, s.nextLaunchId, s.nextTurnId, others);
    case _ =>
      NextKeepsIds(s, step);
      hide Next, Inv;
      assert Ids(Next(s, step).waiters) == ids;
  }

  lemma OneMoreLaunch(ids: seq<int>, nextLaunchId: int, nextTurnId: int)
    requires InOrder(ids, nextLaunchId, nextTurnId) && nextLaunchId <= 2
    ensures InOrder(ids + [nextLaunchId], nextLaunchId + 1, nextTurnId)
  {
    OneMoreId(ids, nextLaunchId);
    hide OfLaunch;
  }

  lemma OneMoreTurn(ids: seq<int>, nextLaunchId: int, nextTurnId: int, others: nat)
    requires InOrder(ids, nextLaunchId, nextTurnId)
    ensures InOrder(ids + [nextTurnId + others], nextLaunchId, nextTurnId + others + 1)
  {
    OneMoreId(ids, nextTurnId + others);
    hide OfLaunch;
  }

  lemma OneMoreId(ids: seq<int>, id: int)
    ensures OfLaunch(ids + [id]) == OfLaunch(ids) + if id < 100 then [id] else []
  {
    FilterConcat(ids, [id], i => i < 100);
    FilterCons(id, [], i => i < 100);
    FilterNothing((i: int) => i < 100);
    assert [id] + [] == [id];
  }

  lemma NextKeepsIds(s: State, step: Step)
    requires Inv(s) && !step.LaunchRequest? && !step.TurnRequest?
    ensures var t := Next(s, step);
      && |t.waiters| == |s.waiters| && t.nextLaunchId == s.nextLaunchId && t.nextTurnId == s.nextTurnId
      && forall w :: 0 <= w < |s.waiters| ==> t.waiters[w].id == s.waiters[w].id
  {
    hide IdsInv, SentInv;
  }

  /** Closing the stream completes every waiting request and empties the map. */
  lemma CloseWakesEveryone(s: State)
    requires Inv(s) && s.reading
    ensures var t := Next(s, StdoutCloses);
      && t.waiting == map[]
      && forall w :: 0 <= w < |s.waiters| ==>
           t.waiters[w] == if IsWaiting(s, w) then s.waiters[w].(completion := Some(StreamClosed)) else s.waiters[w]
  {
    HeldAreWaiting(s);
  }

  /** A completion is final, and once the stream is closed nobody is completed any more: a request
      registered after the close can only end by its own failed write. */
  lemma {:induction false} NoWakeAfterClose(s: State, steps: seq<Step>)
    requires Inv(s) && !s.reading
    ensures !Run(s, steps).reading && Run(s, steps).sent == s.sent && |s.waiters| <= |Run(s, steps).waiters|
    ensures forall w :: |s.waiters| <= w < |Run(s, steps).waiters| ==> Run(s, steps).waiters[w].completion.None?
    decreases |steps|
  {
    hide Inv, Next;
    if steps == [] {
    } else {
      NextKeepsInv(s, steps[0]);
      ClosedStep(s, steps[0]);
      NoWakeAfterClose(Next(s, steps[0]), steps[1..]);
    }
    RunKeepsInv(s, steps);
    assert SentInv(s) && SentInv(Run(s, steps)) by { InvSent(s); InvSent(Run(s, steps)); }
    UnsentAreOpen(s, Run(s, steps));
  }

  lemma InvSent(s: State)
    requires Inv(s)
    ensures SentInv(s)
  {}

  lemma ClosedStep(s: State, step: Step)
    requires !s.reading
    ensures !Next(s, step).reading && Next(s, step).sent == s.sent && |s.waiters| <= |Next(s, step).waiters|
  {}

  lemma UnsentAreOpen(s: State, t: State)
    requires SentInv(s) && SentInv(t) && t.sent == s.sent
    ensures forall w :: |s.waiters| <= w < |t.waiters| ==> t.waiters[w].completion.None?
  {
    forall w: nat | |s.waiters| <= w < |t.waiters| ensures t.waiters[w].completion.None? {
      assert s.sent[w] == 0 && t.sent[w] == 0;
    }
  }

  /** What a waiter was told never changes. */
  lemma {:induction false} CompletionIsFinal(s: State, steps: seq<Step>, w: nat)
    requires Inv(s) && w < |s.waiters| && s.waiters[w].completion.Some?
    ensures w < |Run(s, steps).waiters| && Run(s, steps).waiters[w].completion == s.waiters[w].completion
    decreases |steps|
  {
    if steps == [] {
    } else {
      NextKeepsInv(s, steps[0]);
      NextKeepsCompletion(s, steps[0], w);
      hide Inv, Next;
      CompletionIsFinal(Next(s, steps[0]), steps[1..], w);
    }
  }

  lemma NextKeepsCompletion(s: State, step: Step, w: nat)
    requires Inv(s) && w < |s.waiters| && s.waiters[w].completion.Some?
    ensures w < |Next(s, step).waiters| && Next(s, step).waiters[w].completion == s.waiters[w].completion
  {
    if step.ResponseArrives? && step.id in s.waiting { assert s.waiting[step.id] != w; }
    HeldAreWaiting(s);
  }
}
