/** The bridge itself: the shared maps, the channel and the pipe, updated in place, each method
    carrying out one step of the protocol (crates/codex-bridge/src/lib.rs and
    crates/codex-bridge/src/external.rs). */
module Bridge {
  import opened BridgeProtocol

  datatype ServerEvent = RequestEvent(request: ServerRequest) | TurnEndEvent(turnId: string)

  datatype Line = Line(id: RequestId, body: Body)

  datatype BridgeError = UnknownApproval(callId: string)

  /** A reply that has taken its request and not been written yet. */
  datatype Resolve = Resolve(id: RequestId, body: Body)

  datatype Begun = Begun(resolve: Resolve) | Refused(error: BridgeError)

  class CodexBridge {
    var pending: map<string, PendingServerRequest>
    var channel: seq<ServerEvent>
    var pumpAlive: bool
    var stdin: seq<Line>
    ghost var model: State

    static predicate Matches(event: ServerEvent, modelled: Event, arrivals: seq<ServerRequest>) {
      match modelled
      case Request(k) => k < |arrivals| && event == RequestEvent(arrivals[k])
      case TurnEnded(turnId, _) => event == TurnEndEvent(turnId)
    }

    static function Lines(written: seq<Response>): seq<Line> {
      seq(|written|, i requires 0 <= i < |written| => Line(written[i].id, written[i].body))
    }

    static function Requests(pending: map<string, Entry>): map<string, PendingServerRequest> {
      map item | item in pending :: pending[item].request
    }

    /** The real fields carry the protocol state `s`. */
    static ghost predicate Carries(pending: map<string, PendingServerRequest>, channel: seq<ServerEvent>,
                                   pumpAlive: bool,
                                   stdin: seq<Line>, s: State)
    {
      && pumpAlive == s.pumpAlive
      && pending == Requests(s.pending)
      && |channel| == |s.queue|
      && (forall i :: 0 <= i < |channel| ==> Matches(channel[i], s.queue[i], s.arrivals))
      && stdin == Lines(s.written)
    }

    ghost predicate Valid()
      reads this
    {
      Inv(model) && Carries(pending, channel, pumpAlive, stdin, model)
    }

    constructor ()
      ensures Valid() && model == INITIAL
    {
      pending, channel, pumpAlive, stdin, model := map[], [], true, [], INITIAL;
    }

    /** `handle_server_request_message`: answer at once or put on the channel. */
    method HandleServerRequestMessage(request: ServerRequest, writeOk: bool)
      requires Valid()
      modifies this
      ensures Valid() && model == Next(old(model), ServerAsks(request, writeOk))
      ensures channel == old(channel) + if Forwarded(request) && pumpAlive then [RequestEvent(request)] else []
      ensures stdin == old(stdin) + if !Forwarded(request) && writeOk then [Line(request.id, Refusal(request))] else []
      ensures pending == old(pending) && pumpAlive == old(pumpAlive)
    {
      ReadKeepsInv(model, request, writeOk);
      hide Inv;
      model := Next(model, ServerAsks(request, writeOk));
      if Forwarded(request) {
        if pumpAlive { channel := channel + [RequestEvent(request)]; }
      } else if writeOk {
        stdin := stdin + [Line(request.id, Refusal(request))];
      }
    }

    /** The reader passes a turn-ending notification on. */
    method HandleTurnEndMessage(turnId: string)
      requires Valid()
      modifies this
      ensures Valid() && model == Next(old(model), ServerEndsTurn(turnId))
      ensures channel == old(channel) + if pumpAlive then [TurnEndEvent(turnId)] else []
      ensures pending == old(pending) && pumpAlive == old(pumpAlive) && stdin == old(stdin)
    {
      EndTurnKeepsInv(model, turnId);
      hide Inv;
      model := Next(model, ServerEndsTurn(turnId));
      if pumpAlive { channel := channel + [TurnEndEvent(turnId)]; }
    }

    /** One turn of `run_external_event_pump`. */
    method PumpEvent()
      requires Valid()
      modifies this
      ensures Valid() && model == Next(old(model), PumpOne)
      ensures pumpAlive == old(pumpAlive) && stdin == old(stdin)
      ensures !pumpAlive || old(channel) == [] ==> channel == old(channel) && pending == old(pending)
      ensures pumpAlive && old(channel) != [] ==>
        && channel == old(channel)[1..]
        && match old(channel)[0]
           case RequestEvent(request) =>
             Forwarded(request) && pending == old(pending)[request.itemId := PendingOf(request)]
           case TurnEndEvent(turnId) =>
             pending == map item | item in old(pending) && old(pending)[item].turnId != turnId :: old(pending)[item]
    {
      hide Inv;
      PumpKeepsInv(model);
      HeadIsForwarded();
      ghost var s := model;
      model := Next(model, PumpOne);
      if pumpAlive && channel != [] {
        var event := channel[0];
        channel := channel[1..];
        match event {
          case RequestEvent(request) => HandleServerRequest(request, s.queue[0].arrival, s.pending);
          case TurnEndEvent(turnId) => ClearPendingForTurn(turnId, s.pending);
        }
      }
    }

    lemma HeadIsForwarded()
      requires Valid()
      ensures channel != [] && channel[0].RequestEvent? ==> Forwarded(channel[0].request)
    {
      hide PendingInv, ReplyingInv, WrittenInv, Forwarded;
      if channel != [] { assert Matches(channel[0], model.queue[0], model.arrivals); }
    }

    /** `handle_server_request`: remember the request under its item id. */
    method HandleServerRequest(request: ServerRequest, ghost arrival: nat, ghost entries: map<string, Entry>)
      requires Forwarded(request) && pending == Requests(entries)
      modifies this`pending
      ensures pending == old(pending)[request.itemId := PendingOf(request)]
      ensures pending == Requests(entries[request.itemId := Entry(arrival, PendingOf(request))])
    {
      pending := pending[request.itemId := PendingOf(request)];
    }

    /** `clear_pending_for_turn` */
    method ClearPendingForTurn(turnId: string, ghost entries: map<string, Entry>)
      requires pending == Requests(entries)
      modifies this`pending
      ensures pending == map item | item in old(pending) && old(pending)[item].turnId != turnId :: old(pending)[item]
      ensures pending == Requests(map item | item in entries && entries[item].request.turnId != turnId :: entries[item])
    {
      pending := map item | item in pending && pending[item].turnId != turnId :: pending[item];
    }

    /** `interrupt`, once its request has come back, whatever the outcome. */
    method Interrupt(turnId: string)
      requires Valid()
      modifies this
      ensures Valid() && model == Next(old(model), InterruptClears(turnId))
      ensures pending == map item | item in old(pending) && old(pending)[item].turnId != turnId :: old(pending)[item]
      ensures channel == old(channel) && pumpAlive == old(pumpAlive) && stdin == old(stdin)
    {
      ClearKeepsInv(model, turnId);
      hide Inv;
      ClearPendingForTurn(turnId, model.pending);
      model := Next(model, InterruptClears(turnId));
    }

    /** The pump exits; what was queued is gone. */
    method StopPumping()
      requires Valid()
      modifies this
      ensures Valid() && model == Next(old(model), PumpStops)
      ensures channel == [] && !pumpAlive && pending == old(pending) && stdin == old(stdin)
    {
      StopKeepsInv(model);
      hide Inv;
      pumpAlive, channel := false, [];
      model := Next(model, PumpStops);
    }

    /** The begun reply answers the request that arrived as `arrival`. */
    static predicate IsReplyTo(resolve: Resolve, s: State, arrival: nat) {
      arrival in s.replying && arrival < |s.arrivals| && resolve == Resolve(s.arrivals[arrival].id, s.replying[arrival])
    }

    /** It says under the request's id what the reply means. */
    static predicate IsMeant(resolve: Resolve, s: State, arrival: nat, reply: Reply) {
      && arrival < |s.arrivals| && Meant(s.arrivals[arrival], reply).Some?
      && resolve == Resolve(s.arrivals[arrival].id, Meant(s.arrivals[arrival], reply).value)
    }

    /** What a reply gets back: nothing to send when its entry is gone or of the other kind. */
    static function BegunFor(pending: map<string, PendingServerRequest>, callId: string, reply: Reply): Begun {
      if callId !in pending then Refused(UnknownApproval(callId))
      else match ReplyBody(pending[callId], reply)
        case None => Refused(UnknownApproval(callId))
        case Some(body) => Begun(Resolve(pending[callId].id, body))
    }

    /** What has been begun says what the reply means for the request it answers. */
    static lemma BegunAsMeant(s: State, callId: string, reply: Reply)
      requires Inv(s) && callId in s.pending
      ensures var k, t := s.pending[callId].arrival, Begin(s, callId, reply);
        && k < |t.arrivals| && t.arrivals == s.arrivals
        && (k in t.replying <==> Meant(t.arrivals[k], reply).Some?)
        && (k in t.replying ==> t.replying[k] == Meant(t.arrivals[k], reply).value)
    {
      hide QueueInv, WrittenInv, ReplyBody, Meant, PendingOf, Forwarded, Fits;
      var k := s.pending[callId].arrival;
      assert FateIs(s, k, Pending) && !FateIs(s, k, Replying);
      RepliesAsMeant(s.arrivals[k], reply);
    }

    static lemma BegunIsReply(pending: map<string, PendingServerRequest>, channel: seq<ServerEvent>, pumpAlive: bool,
                              stdin: seq<Line>, s: State, callId: string, reply: Reply)
      requires Inv(s) && Carries(pending, channel, pumpAlive, stdin, s)
      ensures var begun := BegunFor(pending, callId, reply);
        begun.Begun? ==>
          && callId in s.pending
          && var k, t := s.pending[callId].arrival, Begin(s, callId, reply);
             IsReplyTo(begun.resolve, t, k) && IsMeant(begun.resolve, t, k, reply)
    {
      hide QueueInv, ReplyingInv, WrittenInv, ReplyBody, Lines, Matches, Meant;
      if callId in s.pending { BegunAsMeant(s, callId, reply); }
    }

    static lemma BegunCarries(pending: map<string, PendingServerRequest>, channel: seq<ServerEvent>, pumpAlive: bool,
                              stdin: seq<Line>, s: State, callId: string, reply: Reply)
      requires Carries(pending, channel, pumpAlive, stdin, s)
      ensures Carries(pending - {callId}, channel, pumpAlive, stdin, Begin(s, callId, reply))
    {
      hide ReplyBody, Matches, Lines;
      if callId !in pending { assert pending - {callId} == pending; }
    }

    /** `respond_approval` and `respond_user_input` up to the write: the entry leaves the map first,
        and a reply of the other kind is refused after that. */
    method BeginReplyTo(callId: string, reply: Reply) returns (begun: Begun, ghost arrival: nat)
      requires Valid()
      modifies this
      ensures Valid() && model == Next(old(model), BeginReply(callId, reply))
      ensures pending == old(pending) - {callId}
      ensures begun == BegunFor(old(pending), callId, reply)
      ensures begun.Refused? <==>
        callId !in old(pending) || (old(pending)[callId].kind.UserInput? <==> reply.Approval?)
      ensures begun.Refused? ==> begun.error == UnknownApproval(callId)
      ensures begun.Begun? ==> IsReplyTo(begun.resolve, model, arrival) && IsMeant(begun.resolve, model, arrival, reply)
    {
      hide IsReplyTo, IsMeant, Inv, ReplyBody, Begin, Carries;
      BeginKeepsInv(model, callId, reply);
      BegunCarries(pending, channel, pumpAlive, stdin, model, callId, reply);
      BegunIsReply(pending, channel, pumpAlive, stdin, model, callId, reply);
      arrival := if callId in model.pending then model.pending[callId].arrival else 0;
      model := Next(model, BeginReply(callId, reply));
      if callId !in pending {
        assert pending - {callId} == pending;
        return Refused(UnknownApproval(callId)), arrival;
      }
      var request := pending[callId];
      OtherKindIsRefused(request, reply);
      pending := pending - {callId};
      match ReplyBody(request, reply) {
        case None => return Refused(UnknownApproval(callId)), arrival;
        case Some(body) => return Begun(Resolve(request.id, body)), arrival;
      }
    }

    /** `send_resolve` for the reply begun to the request that arrived as `arrival`. */
    method SendResolve(resolve: Resolve, ghost arrival: nat, writeOk: bool)
      requires Valid() && IsReplyTo(resolve, model, arrival)
      modifies this
      ensures Valid() && model == Next(old(model), FinishReply(arrival, writeOk))
      ensures stdin == old(stdin) + if writeOk then [Line(resolve.id, resolve.body)] else []
    {
      FinishKeepsInv(model, arrival, writeOk);
      hide Inv;
      model := Next(model, FinishReply(arrival, writeOk));
      if writeOk { stdin := stdin + [Line(resolve.id, resolve.body)]; }
    }
  }
}
