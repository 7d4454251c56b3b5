/** What runs of the approval round trip guarantee each request (crates/codex-bridge/src/lib.rs,
    crates/codex-bridge/src/external.rs). */
module BridgeRuns {
  import opened Sequences
  import opened BridgeProtocol

  // ---------------------------------------------------------------- what runs guarantee

  lemma InitialInv()
    ensures Inv(INITIAL)
  {}

  /** What one step does to one arrived request, seen from that request alone. */
  function Fated(s: State, step: Step, k: nat): Fate
    requires k < |s.arrivals| == |s.fate|
  {
    var me := s.arrivals[k];
    var event := if step.PumpOne? && s.pumpAlive && s.queue != [] then Some(s.queue[0]) else None;
    match s.fate[k]
    case Queued => if event == Some(Request(k)) then Pending else if step.PumpStops? then Dropped else Queued
    case Pending =>
      if || step == InterruptClears(me.turnId)
         || (event.Some? && event.value.TurnEnded? && event.value.turnId == me.turnId) then
        ClearedByTurn
      else if event.Some? && event.value.Request? && event.value.arrival < |s.arrivals|
           && s.arrivals[event.value.arrival].itemId == me.itemId then
        Overwritten
      else if step.BeginReply? && step.callId == me.itemId && Forwarded(me) then
        if ReplyBody(PendingOf(me), step.reply).Some? then Replying else WrongKind
      else Pending
    case Replying =>
      if step.FinishReply? && step.arrival == k then (if step.writeOk then Answered else WriteFailed) else Replying
    case _ => s.fate[k]
  }

  /** The bridge's steps do to each request exactly what its own view of the protocol says: it is
      taken up once, in order; lost only to its own turn's end, to a newer request with its item id,
      to a reply of the wrong kind, to a failed write or to the pump's end. */
  lemma EachRequestIsTreatedAsFated(s: State, step: Step, k: nat)
    requires Inv(s) && k < |s.arrivals|
    ensures k < |Next(s, step).arrivals| == |Next(s, step).fate| && Next(s, step).arrivals[k] == s.arrivals[k]
    ensures Next(s, step).fate[k] == Fated(s, step, k)
  {
    hide QueueInv, PendingInv, ReplyingInv, WrittenInv, Forwarded, ReplyBody, PendingOf, Pump, Begin, Finish;
    match step
    case PumpOne => PumpedFate(s, k);
    case BeginReply(callId, reply) => BegunFate(s, callId, reply, k);
    case FinishReply(m, writeOk) => FinishedFate(s, m, writeOk, k);
    case _ =>
  }

  lemma PumpedFate(s: State, k: nat)
    requires Inv(s) && k < |s.arrivals|
    ensures Pump(s).fate[k] == Fated(s, PumpOne, k) && Pump(s).arrivals == s.arrivals && |Pump(s).fate| == |s.fate|
  {
    hide QueueInv, PendingInv, ReplyingInv, WrittenInv, Forwarded, PendingOf;
    if s.pumpAlive && s.queue != [] && s.queue[0].Request? { InsertedFate(s, s.queue[0].arrival, k); }
  }

  lemma FinishedFate(s: State, m: nat, writeOk: bool, k: nat)
    requires Inv(s) && k < |s.arrivals|
    ensures Finish(s, m, writeOk).arrivals == s.arrivals && |Finish(s, m, writeOk).fate| == |s.fate|
    ensures Finish(s, m, writeOk).fate[k] == Fated(s, FinishReply(m, writeOk), k)
  {
    hide QueueInv, PendingInv, WrittenInv, Forwarded, Fits;
    assert FateIs(s, k, s.fate[k]);
    if m in s.replying { assert FateIs(s, m, Replying); }
  }

  lemma InsertedFate(s: State, m: nat, k: nat)
    requires Inv(s) && s.queue != [] && s.queue[0] == Request(m) && k < |s.arrivals| && s.pumpAlive
    ensures Next(s, PumpOne).fate[k] == Fated(s, PumpOne, k)
  {
    hide ReplyingInv, WrittenInv, PendingOf, Forwarded;
    assert FateIs(s, m, Queued) && FateIs(s, k, s.fate[k]);
    var item := s.arrivals[m].itemId;
    if item in s.pending { assert FateIs(s, s.pending[item].arrival, Pending); }
  }

  lemma BegunFate(s: State, callId: string, reply: Reply, k: nat)
    requires Inv(s) && k < |s.arrivals|
    ensures Begin(s, callId, reply).arrivals == s.arrivals && |Begin(s, callId, reply).fate| == |s.fate|
    ensures Begin(s, callId, reply).fate[k] == Fated(s, BeginReply(callId, reply), k)
  {
    hide QueueInv, ReplyingInv, WrittenInv, PendingOf, Forwarded, ReplyBody;
    assert FateIs(s, k, s.fate[k]);
    if callId in s.pending { assert FateIs(s, s.pending[callId].arrival, Pending); }
  }

  /** A settled request stays settled, with the same outcome, in every continuation. */
  lemma {:induction false} SettledForGood(s: State, steps: seq<Step>, k: nat)
    requires Inv(s) && k < |s.arrivals| && Settled(s.fate[k])
    ensures k < |Run(s, steps).arrivals| == |Run(s, steps).fate|
    ensures Run(s, steps).fate[k] == s.fate[k] && Run(s, steps).arrivals[k] == s.arrivals[k]
    decreases |steps|
  {
    if steps == [] {
    } else {
      EachRequestIsTreatedAsFated(s, steps[0], k);
      NextKeepsInv(s, steps[0]);
      hide Inv, Next;
      SettledForGood(Next(s, steps[0]), steps[1..], k);
    }
  }

  ghost predicate DistinctIds(arrivals: seq<ServerRequest>) {
    forall i, j :: 0 <= i < j < |arrivals| ==> arrivals[i].id != arrivals[j].id
  }

  /** In every run each arrived request is answered at most once, by the reader or by a reply, under
      its own id and with an answer that fits it; so no id is answered twice when ids are distinct. */
  lemma AnsweredAtMostOnce(steps: seq<Step>)
    ensures var s := Run(INITIAL, steps);
      && (forall i, j :: 0 <= i < j < |s.written| ==> s.written[i].arrival != s.written[j].arrival)
      && (forall r :: r in s.written ==>
            r.arrival < |s.arrivals| && r.id == s.arrivals[r.arrival].id && Fits(s.arrivals[r.arrival], r.body))
      && (DistinctIds(s.arrivals) ==> forall i, j :: 0 <= i < j < |s.written| ==> s.written[i].id != s.written[j].id)
  {
    InitialInv();
    RunKeepsInv(INITIAL, steps);
    var s := Run(INITIAL, steps);
    hide QueueInv, PendingInv, ReplyingInv, Fits;
    assert forall i :: 0 <= i < |s.written| ==> FateIs(s, s.written[i].arrival, Answered);
  }

  predicate InQueue(s: State, k: nat) { Request(k) in s.queue }

  ghost predicate IsPending(s: State, k: nat) { exists item :: item in s.pending && s.pending[item].arrival == k }

  ghost predicate IsAnswered(s: State, k: nat) { exists r :: r in s.written && r.arrival == k }

  /** In every run each request sits in exactly the place its fate names: in the channel, in the
      pending map under its item id, in a begun reply, among the answers, or nowhere any more. */
  lemma EveryRequestIsInOnePlace(steps: seq<Step>, k: nat)
    requires k < |Run(INITIAL, steps).arrivals|
    ensures var s := Run(INITIAL, steps);
      && k < |s.fate|
      && (InQueue(s, k) <==> s.fate[k] == Queued)
      && (IsPending(s, k) <==> s.fate[k] == Pending)
      && (k in s.replying <==> s.fate[k] == Replying)
      && (IsAnswered(s, k) <==> s.fate[k] == Answered)
  {
    InitialInv();
    RunKeepsInv(INITIAL, steps);
    InvPlaces(Run(INITIAL, steps), k);
  }

  lemma InvPlaces(s: State, k: nat)
    requires Inv(s) && k < |s.arrivals|
    ensures (InQueue(s, k) <==> s.fate[k] == Queued) && (IsPending(s, k) <==> s.fate[k] == Pending)
    ensures (k in s.replying <==> s.fate[k] == Replying) && (IsAnswered(s, k) <==> s.fate[k] == Answered)
  {
    hide Fits, PendingOf, Forwarded;
    assert FateIs(s, k, s.fate[k]);
    if InQueue(s, k) { var i :| 0 <= i < |s.queue| && s.queue[i] == Request(k); }
    if IsPending(s, k) { var item :| item in s.pending && s.pending[item].arrival == k; assert FateIs(s, k, Pending); }
    if s.fate[k] == Answered {
      var i :| 0 <= i < |s.written| && s.written[i].arrival == k;
      assert s.written[i] in s.written;
    }
    if IsAnswered(s, k) {
      var r :| r in s.written && r.arrival == k;
      var i :| 0 <= i < |s.written| && s.written[i] == r;
      assert FateIs(s, s.written[i].arrival, Answered);
    }
  }

  /** When the pump handles a turn end, every request of that turn that arrived before it has left
      the channel and the pending map. */
  lemma TurnEndSettles(s: State, k: nat)
    requires Inv(s) && s.pumpAlive && s.queue != [] && s.queue[0].TurnEnded?
    requires k < s.queue[0].seen && s.arrivals[k].turnId == s.queue[0].turnId
    ensures k < |Pump(s).fate| && (Settled(Pump(s).fate[k]) || (Pump(s).fate[k].Replying? && s.fate[k].Replying?))
  {
    NotBehindTurnEnd(s, k);
    InvPlaces(s, k);
    PumpedFate(s, k);
  }

  lemma NotBehindTurnEnd(s: State, k: nat)
    requires QueueInv(s) && s.queue != [] && s.queue[0].TurnEnded? && k < s.queue[0].seen
    ensures !InQueue(s, k)
  {
    forall j | 0 <= j < |s.queue| ensures s.queue[j] != Request(k) {}
  }

  /** How often the pump takes an event. */
  function Pumpings(steps: seq<Step>): nat {
    if steps == [] then 0 else (if steps[0].PumpOne? then 1 else 0) + Pumpings(steps[1..])
  }

  /** The request waits neither in the channel nor for the desktop. */
  ghost predicate IsOut(s: State, k: nat) { k < |s.fate| && (Settled(s.fate[k]) || s.fate[k].Replying?) }

  /** A server's turn end takes effect whatever happens meanwhile: once the pump, still running, has taken as many
      events as the channel held and one more, every request of the turn that had arrived before is done with, or
      is being answered. */
  lemma TurnEndTakesEffect(s: State, turnId: string, steps: seq<Step>, k: nat)
    requires Inv(s) && s.pumpAlive && k < |s.arrivals| && s.arrivals[k].turnId == turnId
    requires PumpStops !in steps && Pumpings(steps) > |s.queue|
    ensures IsOut(Run(Next(s, ServerEndsTurn(turnId)), steps), k)
  {
    NextKeepsInv(s, ServerEndsTurn(turnId));
    hide Inv;
    EndIsReached(Next(s, ServerEndsTurn(turnId)), steps, |s.queue|, turnId, k);
  }

  /** At place `i` of the channel the turn ends, after request `k` of this turn. */
  ghost predicate EndsAt(s: State, i: nat, turnId: string, k: nat) {
    && s.pumpAlive && i < |s.queue| && s.queue[i].TurnEnded? && s.queue[i].turnId == turnId
    && k < s.queue[i].seen && k < |s.arrivals| && s.arrivals[k].turnId == turnId
  }

  lemma {:induction false} EndIsReached(s: State, steps: seq<Step>, i: nat, turnId: string, k: nat)
    requires Inv(s) && EndsAt(s, i, turnId, k) && PumpStops !in steps && Pumpings(steps) > i
    ensures IsOut(Run(s, steps), k)
    decreases |steps|
  {
    if steps == [] {
    } else {
      NextKeepsInv(s, steps[0]);
      if steps[0].PumpOne? && i == 0 {
        TurnEndSettles(s, k);
        hide Inv;
        StaysOut(Pump(s), steps[1..], k);
      } else {
        EndMovesUp(s, steps[0], i, turnId, k);
        hide Inv, EndsAt, Next, IsOut;
        EndIsReached(Next(s, steps[0]), steps[1..], if steps[0].PumpOne? then i - 1 else i, turnId, k);
      }
    }
  }

  lemma EndMovesUp(s: State, step: Step, i: nat, turnId: string, k: nat)
    requires EndsAt(s, i, turnId, k) && !step.PumpStops? && (step.PumpOne? ==> i > 0)
    ensures EndsAt(Next(s, step), if step.PumpOne? then i - 1 else i, turnId, k)
  {
    hide Forwarded, PendingOf, ReplyBody, Refusal, SetFate;
  }

  lemma {:induction false} StaysOut(s: State, steps: seq<Step>, k: nat)
    requires Inv(s) && k < |s.arrivals| && IsOut(s, k)
    ensures IsOut(Run(s, steps), k)
    decreases |steps|
  {
    if steps == [] {
    } else {
      EachRequestIsTreatedAsFated(s, steps[0], k);
      NextKeepsInv(s, steps[0]);
      hide Inv, Next;
      StaysOut(Next(s, steps[0]), steps[1..], k);
    }
  }

  /** A reply begun after the turn end answers nothing: a request of that turn that was not already
      being answered never gets a response, whatever is replied later. */
  lemma RepliesAfterTurnEndAreSilent(s: State, steps: seq<Step>, k: nat)
    requires Inv(s) && s.pumpAlive && s.queue != [] && s.queue[0].TurnEnded?
    requires k < s.queue[0].seen && s.arrivals[k].turnId == s.queue[0].turnId
    requires s.fate[k] != Replying && s.fate[k] != Answered
    ensures !IsAnswered(Run(Pump(s), steps), k)
  {
    TurnEndSettles(s, k);
    PumpKeepsInv(s);
    SettledForGood(Pump(s), steps, k);
    RunKeepsInv(Pump(s), steps);
    PumpedFate(s, k);
    InvPlaces(Run(Pump(s), steps), k);
  }

  /** An interrupt clears what is pending but not what is still in the channel or being answered: it
      silences its turn exactly when nothing of the turn is there. */
  lemma InterruptSilences(s: State, turnId: string)
    requires Inv(s)
    ensures (forall k :: 0 <= k < |s.arrivals| && s.arrivals[k].turnId == turnId ==> Settled(Clear(s, turnId).fate[k]))
       <==> (forall k: nat :: k < |s.arrivals| && s.arrivals[k].turnId == turnId ==> !InQueue(s, k) && k !in s.replying)
  {
    forall k: nat | k < |s.arrivals| && s.arrivals[k].turnId == turnId
      ensures Settled(Clear(s, turnId).fate[k]) <==> !InQueue(s, k) && k !in s.replying
    {
      InvPlaces(s, k);
    }
  }

  /** A request cleared with its turn, by the turn's end or an interrupt, is never answered. */
  lemma ClearedIsSilent(s: State, steps: seq<Step>, k: nat)
    requires Inv(s) && k < |s.arrivals| && s.fate[k] == ClearedByTurn
    ensures k < |Run(s, steps).arrivals| && !IsAnswered(Run(s, steps), k)
  {
    SettledForGood(s, steps, k);
    RunKeepsInv(s, steps);
    InvPlaces(Run(s, steps), k);
  }

  // ---------------------------------------------------------------- requests that can still be answered

  lemma {:induction false} RunConcat(s: State, a: seq<Step>, b: seq<Step>)
    ensures Run(s, a + b) == Run(Run(s, a), b)
    decreases |a|
  {
    if a == [] {
      assert a + b == b;
    } else {
      hide Next;
      assert (a + b)[0] == a[0] && (a + b)[1..] == a[1..] + b;
      RunConcat(Next(s, a[0]), a[1..], b);
    }
  }

  lemma OneStep(s: State, a: Step)
    ensures Run(s, [a]) == Next(s, a)
  {
    hide Next;
    assert [a][1..] == [] && Run(Next(s, a), []) == Next(s, a);
  }

  lemma TwoSteps(s: State, a: Step, b: Step)
    ensures Run(s, [a, b]) == Next(Next(s, a), b)
  {
    hide Next;
    OneStep(Next(s, a), b);
    assert [a, b][1..] == [b];
  }

  function Pumps(n: nat): seq<Step> { if n == 0 then [] else [PumpOne] + Pumps(n - 1) }

  lemma PumpsFirst(s: State, n: nat)
    requires n > 0
    ensures Run(s, Pumps(n)) == Run(Pump(s), Pumps(n - 1))
  {
    hide Pump;
    assert Pumps(n)[0] == PumpOne && Pumps(n)[1..] == Pumps(n - 1);
  }

  lemma PumpKeepsRest(s: State)
    requires s.pumpAlive && s.queue != []
    ensures Pump(s).queue == s.queue[1..] && Pump(s).pumpAlive && Pump(s).arrivals == s.arrivals
    ensures Pump(s).written == s.written
  {}

  lemma QueuedIsFated(s: State, k: nat, i: nat)
    requires QueueInv(s) && i < |s.queue| && s.queue[i] == Request(k)
    ensures FateIs(s, k, Queued) && Forwarded(s.arrivals[k])
  {}

  /** One turn of the pump brings a queued request one place forward, and from the first place to the map. */
  lemma PumpMovesOn(s: State, k: nat, i: nat)
    requires Inv(s) && s.pumpAlive && i < |s.queue| && s.queue[i] == Request(k)
    ensures var t := Pump(s);
      && Inv(t) && t.pumpAlive && t.arrivals == s.arrivals && t.written == s.written
      && k < |t.arrivals| == |t.fate| && |t.queue| == |s.queue| - 1
      && (i == 0 ==> t.fate[k] == Pending) && (i > 0 ==> t.queue[i-1] == Request(k))
  {
    hide QueueInv, PendingInv, ReplyingInv, WrittenInv, Pump, Forwarded;
    PumpKeepsRest(s);
    PumpKeepsInv(s);
    QueuedIsFated(s, k, i);
    PumpedFate(s, k);
  }

  /** A queued request is pending once the pump has come to it. */
  lemma {:induction false} PumpsReach(s: State, k: nat, i: nat)
    requires Inv(s) && s.pumpAlive && i < |s.queue| && s.queue[i] == Request(k)
    ensures var t := Run(s, Pumps(i + 1));
      && Inv(t) && t.arrivals == s.arrivals && t.written == s.written
      && k < |t.arrivals| == |t.fate| && t.fate[k] == Pending
    decreases i
  {
    hide Inv, Pump;
    PumpMovesOn(s, k, i);
    PumpsFirst(s, i + 1);
    if i == 0 {
      assert Run(Pump(s), Pumps(0)) == Pump(s);
    } else {
      PumpsReach(Pump(s), k, i - 1);
    }
  }

  /** A pending request is answered by a reply in kind that is written. */
  lemma PendingIsAnswered(s: State, k: nat, reply: Reply)
    requires Inv(s) && k < |s.arrivals| == |s.fate| && s.fate[k] == Pending
    ensures Forwarded(s.arrivals[k])
    ensures ReplyBody(PendingOf(s.arrivals[k]), reply).Some? ==>
      Run(s, [BeginReply(s.arrivals[k].itemId, reply), FinishReply(k, true)]).written
      == s.written + [Response(k, s.arrivals[k].id, ReplyBody(PendingOf(s.arrivals[k]), reply).value)]
  {
    hide QueueInv, ReplyingInv, WrittenInv, ReplyBody, PendingOf, Forwarded, Run;
    var item := s.arrivals[k].itemId;
    assert FateIs(s, k, Pending);
    assert item in s.pending && s.pending[item].arrival == k && s.pending[item].request == PendingOf(s.arrivals[k]);
    hide PendingInv;
    TwoSteps(s, BeginReply(item, reply), FinishReply(k, true));
    if ReplyBody(PendingOf(s.arrivals[k]), reply).Some? {
      BegunIsReplying(s, item, reply);
      WrittenByFinish(Begin(s, item, reply), k);
    }
  }

  /** What answering a pending request writes: what the reply means, and nothing when it is of the other kind. */
  lemma AnswersAsMeant(s: State, k: nat, reply: Reply)
    requires Inv(s) && k < |s.arrivals| == |s.fate| && s.fate[k] == Pending
    ensures var meant := Meant(s.arrivals[k], reply);
      Run(s, [BeginReply(s.arrivals[k].itemId, reply), FinishReply(k, true)]).written
      == s.written + if meant.Some? then [Response(k, s.arrivals[k].id, meant.value)] else []
  {
    hide QueueInv, WrittenInv, ReplyBody, PendingOf, Meant, Forwarded, Run, Fits;
    var item := s.arrivals[k].itemId;
    PendingIsAnswered(s, k, reply);
    RepliesAsMeant(s.arrivals[k], reply);
    assert FateIs(s, k, Pending) && !FateIs(s, k, Replying);
    assert item in s.pending && s.pending[item].request == PendingOf(s.arrivals[k]);
    TwoSteps(s, BeginReply(item, reply), FinishReply(k, true));
    if Meant(s.arrivals[k], reply).None? { assert s.written + [] == s.written; }
  }

  /** What the reader does at once with a request: forward it, or write its refusal. */
  lemma ReadsExactly(s: State, request: ServerRequest)
    ensures var t := Next(s, ServerAsks(request, true));
      var forwarded := request.wellFormed
        && request.name in {"item/commandExecution/requestApproval", "item/fileChange/requestApproval",
                            "item/permissions/requestApproval", "item/tool/requestUserInput"};
      var code := if request.wellFormed && request.name == "account/chatgptAuthTokens/refresh" then -32000 else -32601;
      && t.queue == s.queue + (if forwarded && s.pumpAlive then [Request(|s.arrivals|)] else [])
      && t.written == s.written + if forwarded then [] else [Response(|s.arrivals|, request.id, Error(code))]
  {
    hide Forwarded, Refusal;
    RefusedExactly(request);
  }

  lemma BegunIsReplying(s: State, item: string, reply: Reply)
    requires item in s.pending && ReplyBody(s.pending[item].request, reply).Some?
    ensures var k, t := s.pending[item].arrival, Begin(s, item, reply);
      && k in t.replying && t.replying[k] == ReplyBody(s.pending[item].request, reply).value
      && t.arrivals == s.arrivals && t.written == s.written
  {
    hide ReplyBody;
  }

  lemma WrittenByFinish(s: State, k: nat)
    requires k in s.replying && k < |s.arrivals|
    ensures Finish(s, k, true).written == s.written + [Response(k, s.arrivals[k].id, s.replying[k])]
  {}

  function FittingReply(kind: PendingKind): Reply { if kind.UserInput? then UserReply("") else Approval(Allow) }

  lemma RepliesFit(request: PendingServerRequest)
    ensures ReplyBody(request, FittingReply(request.kind)).Some?
  {}

  /** A request that waits, in the channel or in the map, can still be answered. */
  lemma WaitingCanBeAnswered(s: State, k: nat) returns (steps: seq<Step>)
    requires Inv(s) && k < |s.arrivals| && (s.fate[k] == Queued || s.fate[k] == Pending)
    ensures IsAnswered(Run(s, steps), k)
  {
    hide Forwarded, ReplyBody, PendingInv, ReplyingInv, WrittenInv;
    steps := [];
    var t := s;
    if s.fate[k] == Queued {
      assert FateIs(s, k, Queued);
      var i :| 0 <= i < |s.queue| && s.queue[i] == Request(k);
      steps := Pumps(i + 1);
      PumpsReach(s, k, i);
      t := Run(s, steps);
    } else {
      assert Run(s, []) == s;
    }
    PendingIsAnswered(t, k, UserReply(""));
    var reply := FittingReply(PendingOf(t.arrivals[k]).kind);
    RepliesFit(PendingOf(t.arrivals[k]));
    PendingIsAnswered(t, k, reply);
    var last := [BeginReply(t.arrivals[k].itemId, reply), FinishReply(k, true)];
    RunConcat(s, steps, last);
    steps := steps + last;
    var written := Run(t, last).written;
    assert written[|written|-1].arrival == k;
  }

  /** After an interrupt of its turn a request can still be answered exactly when it was in the channel or
      being answered; otherwise it never is. */
  lemma InterruptedCanBeAnswered(s: State, k: nat)
    requires Inv(s) && k < |s.arrivals| && s.fate[k] != Answered
    ensures (exists steps :: IsAnswered(Run(Clear(s, s.arrivals[k].turnId), steps), k))
       <==> InQueue(s, k) || k in s.replying
  {
    var t := Clear(s, s.arrivals[k].turnId);
    ClearKeepsInv(s, s.arrivals[k].turnId);
    InvPlaces(s, k);
    assert t.arrivals == s.arrivals && t.replying == s.replying;
    assert t.fate[k] == if s.fate[k] == Pending then ClearedByTurn else s.fate[k];
    hide Clear;
    if s.fate[k] == Queued {
      var steps := WaitingCanBeAnswered(t, k);
    } else if s.fate[k] == Replying {
      ReplyingCanBeAnswered(t, k);
    } else {
      forall steps ensures !IsAnswered(Run(t, steps), k) {
        SettledForGood(t, steps, k);
        RunKeepsInv(t, steps);
        InvPlaces(Run(t, steps), k);
      }
    }
  }

  lemma ReplyingCanBeAnswered(s: State, k: nat)
    requires Inv(s) && k < |s.arrivals| && s.fate[k] == Replying
    ensures IsAnswered(Run(s, [FinishReply(k, true)]), k)
  {
    hide Inv, Finish, Run;
    InvPlaces(s, k);
    OneStep(s, FinishReply(k, true));
    WrittenByFinish(s, k);
    var written := Finish(s, k, true).written;
    assert written[|written|-1].arrival == k;
  }

  /** The shortest such run: an approval is asked for, its turn interrupted while it is in the channel, and
      the desktop's later word still goes out. */
  lemma InterruptedApprovalGoesOut(request: ServerRequest)
    requires request.wellFormed && request.name == EXEC_APPROVAL
    ensures Run(INITIAL, [ServerAsks(request, true), InterruptClears(request.turnId), PumpOne,
                          BeginReply(request.itemId, Approval(Allow)), FinishReply(0, true)]).written
      == [Response(0, request.id, Decision("accept"))]
  {
    hide Inv, Next, PendingOf, ReplyBody, Run, Pump;
    var first := [ServerAsks(request, true), InterruptClears(request.turnId)];
    var last := [BeginReply(request.itemId, Approval(Allow)), FinishReply(0, true)];
    var t := Run(INITIAL, first);
    AskedAndInterrupted(request);
    AllowedIsAccepted(request);
    PumpsReach(t, 0, 0);
    PendingIsAnswered(Run(t, Pumps(1)), 0, Approval(Allow));
    RunConcat(t, Pumps(1), last);
    RunConcat(INITIAL, first, Pumps(1) + last);
    assert Pumps(0) == [] && Pumps(1) == [PumpOne];
    assert first + ([PumpOne] + last) == [ServerAsks(request, true), InterruptClears(request.turnId), PumpOne,
                                          BeginReply(request.itemId, Approval(Allow)), FinishReply(0, true)];
  }

  lemma AskedAndInterrupted(request: ServerRequest)
    requires request.wellFormed && request.name == EXEC_APPROVAL
    ensures var t := Run(INITIAL, [ServerAsks(request, true), InterruptClears(request.turnId)]);
      Inv(t) && t.queue == [Request(0)] && t.pumpAlive && t.written == [] && t.arrivals == [request]
  {
    hide Inv, Run;
    TwoSteps(INITIAL, ServerAsks(request, true), InterruptClears(request.turnId));
    InitialInv();
    NextKeepsInv(INITIAL, ServerAsks(request, true));
    NextKeepsInv(Next(INITIAL, ServerAsks(request, true)), InterruptClears(request.turnId));
  }

  lemma AllowedIsAccepted(request: ServerRequest)
    requires request.wellFormed && request.name == EXEC_APPROVAL
    ensures Forwarded(request) && ReplyBody(PendingOf(request), Approval(Allow)) == Some(Decision("accept"))
  {}

  /** The approval round trip, from any state: a request that the desktop answers, taken up in its turn and replied
      to, adds under its id exactly what the reply means, or nothing when the reply is of the other kind. */
  lemma RoundTrip(s: State, request: ServerRequest, reply: Reply)
    requires Inv(s) && s.pumpAlive && request.wellFormed
    requires request.name in {"item/commandExecution/requestApproval", "item/fileChange/requestApproval",
                              "item/permissions/requestApproval", "item/tool/requestUserInput"}
    ensures var k := |s.arrivals|;
      var last := [BeginReply(request.itemId, reply), FinishReply(k, true)];
      var meant := Meant(request, reply);
      Run(s, [ServerAsks(request, true)] + (Pumps(|s.queue| + 1) + last)).written
      == s.written + if meant.Some? then [Response(k, request.id, meant.value)] else []
  {
    RefusedExactly(request);
    var k := |s.arrivals|;
    var asks, last := [ServerAsks(request, true)], [BeginReply(request.itemId, reply), FinishReply(k, true)];
    var t := Next(s, asks[0]);
    NextKeepsInv(s, asks[0]);
    assert t.queue == s.queue + [Request(k)] && t.arrivals[k] == request && t.pumpAlive && t.written == s.written;
    hide Inv, Next, PendingOf, Meant, Forwarded, Refusal;
    OneStep(s, asks[0]);
    PumpsReach(t, k, |s.queue|);
    AnswersAsMeant(Run(t, Pumps(|s.queue| + 1)), k, reply);
    RunConcat(t, Pumps(|s.queue| + 1), last);
    RunConcat(s, asks, Pumps(|s.queue| + 1) + last);
  }
}
