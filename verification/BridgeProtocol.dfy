/** The approval round trip of the Codex bridge as a state machine: server requests come in, are
    answered on the spot or forwarded, wait for the desktop, and are answered, cleared, overwritten
    or lost (crates/codex-bridge/src/lib.rs, crates/codex-bridge/src/external.rs). Every step is one
    lock-protected map operation, one channel operation or one write. */
module BridgeProtocol {
  import opened Sequences

  // ---------------------------------------------------------------- messages

  /** A JSON-RPC request id: any JSON value. */
  datatype RequestId = IntId(n: int) | StrId(s: string) | OtherId(json: string)

  /** A server message that carries both an id and a method. `wellFormed` says whether it
      deserializes; the other fields are what the handlers read from its parameters. */
  datatype ServerRequest = ServerRequest(
    id: RequestId, wellFormed: bool, name: string, itemId: string, threadId: string, turnId: string,
    questionId: Option<string>, permissions: string)

  const EXEC_APPROVAL := "item/commandExecution/requestApproval"
  const FILE_CHANGE_APPROVAL := "item/fileChange/requestApproval"
  const PERMISSIONS_APPROVAL := "item/permissions/requestApproval"
  const USER_INPUT := "item/tool/requestUserInput"
  const AUTH_REFRESH := "account/chatgptAuthTokens/refresh"

  const METHOD_NOT_FOUND := -32601
  const SERVER_ERROR := -32000
  const EMPTY_OBJECT := "{}"

  datatype PendingKind = ExecApproval | FileChangeApproval | PermissionApproval | UserInput

  datatype PendingServerRequest = PendingServerRequest(
    id: RequestId, kind: PendingKind, threadId: string, turnId: string,
    questionId: Option<string>, permissions: Option<string>)

  datatype ApprovalDecision = Allow | AllowForSession | Deny

  datatype Body =
    | Decision(decision: string)
    | Grant(permissions: string, scope: string)
    | Answer(questionId: string, reply: string)
    | Error(code: int)

  /** `is_supported_server_request_method`, and the kind each method waits as. */
  function KindOf(name: string): Option<PendingKind> {
    if name == EXEC_APPROVAL then Some(ExecApproval)
    else if name == FILE_CHANGE_APPROVAL then Some(FileChangeApproval)
    else if name == PERMISSIONS_APPROVAL then Some(PermissionApproval)
    else if name == USER_INPUT then Some(UserInput)
    else None
  }

  predicate Forwarded(request: ServerRequest) { request.wellFormed && KindOf(request.name).Some? }

  /** What the reader answers a request it does not forward. */
  function Refusal(request: ServerRequest): Body {
    if request.wellFormed && request.name == AUTH_REFRESH then Error(SERVER_ERROR) else Error(METHOD_NOT_FOUND)
  }

  function PendingOf(request: ServerRequest): PendingServerRequest
    requires Forwarded(request)
  {
    var kind := KindOf(request.name).value;
    PendingServerRequest(request.id, kind, request.threadId, request.turnId,
                         if kind.UserInput? then request.questionId else None,
                         if kind.PermissionApproval? then Some(request.permissions) else None)
  }

  /** `respond_approval`: the result for this decision, or None for a kind it does not answer. */
  function ApprovalBody(request: PendingServerRequest, decision: ApprovalDecision): Option<Body> {
    match request.kind
    case ExecApproval => Some(Decision(DecisionWord(decision)))
    case FileChangeApproval => Some(Decision(DecisionWord(decision)))
    case PermissionApproval =>
      var asked := if request.permissions.Some? then request.permissions.value else EMPTY_OBJECT;
      Some(Grant(if decision.Deny? then EMPTY_OBJECT else asked,
                 if decision.AllowForSession? then "session" else "turn"))
    case UserInput => None
  }

  function DecisionWord(decision: ApprovalDecision): string {
    match decision
    case Allow => "accept"
    case AllowForSession => "acceptForSession"
    case Deny => "decline"
  }

  /** `respond_user_input` */
  function UserInputBody(request: PendingServerRequest, reply: string): Option<Body> {
    if !request.kind.UserInput? then None
    else Some(Answer(if request.questionId.Some? then request.questionId.value else "answer", reply))
  }

  lemma OtherKindIsRefused(request: PendingServerRequest, reply: Reply)
    ensures ReplyBody(request, reply).None? <==> (request.kind.UserInput? <==> reply.Approval?)
  {}

  datatype Reply = Approval(decision: ApprovalDecision) | UserReply(text: string)

  /** The result a desktop reply gives this request; None when the request is of the other kind. */
  function ReplyBody(request: PendingServerRequest, reply: Reply): Option<Body> {
    match reply
    case Approval(decision) => ApprovalBody(request, decision)
    case UserReply(text) => UserInputBody(request, text)
  }

  // ---------------------------------------------------------------- state

  /** What the reader puts on the channel; requests are named by their arrival number, and a turn end
      records how many requests had arrived before it. */
  datatype Event = Request(arrival: nat) | TurnEnded(turnId: string, seen: nat)

  datatype Entry = Entry(arrival: nat, request: PendingServerRequest)

  datatype Response = Response(arrival: nat, id: RequestId, body: Body)

  /** Where an arrived request stands. */
  datatype Fate =
    | Queued | Pending | Replying | Answered
    | WriteFailed | ClearedByTurn | Overwritten | WrongKind | Dropped

  predicate Settled(fate: Fate) { !fate.Queued? && !fate.Pending? && !fate.Replying? }

  /** `arrivals` and `fate` are the history; the rest is what the process holds. */
  datatype State = State(
    arrivals: seq<ServerRequest>, fate: seq<Fate>,
    queue: seq<Event>, pumpAlive: bool, pending: map<string, Entry>, replying: map<nat, Body>, written: seq<Response>)

  const INITIAL := State([], [], [], true, map[], map[], [])

  datatype Step =
    | ServerAsks(request: ServerRequest, writeOk: bool)
    | ServerEndsTurn(turnId: string)
    | PumpOne
    | PumpStops
    | BeginReply(callId: string, reply: Reply)
    | FinishReply(arrival: nat, writeOk: bool)
    | InterruptClears(turnId: string)

  function SetFate(fate: seq<Fate>, k: nat, f: Fate): seq<Fate> {
    if k < |fate| then fate[k := f] else fate
  }

  /** `handle_server_request_message` */
  function ReadRequest(s: State, request: ServerRequest, writeOk: bool): State {
    var k := |s.arrivals|;
    var t := s.(arrivals := s.arrivals + [request]);
    if Forwarded(request) then
      if s.pumpAlive then t.(queue := s.queue + [Request(k)], fate := s.fate + [Queued])
      else t.(fate := s.fate + [Dropped])
    else if writeOk then
      t.(written := s.written + [Response(k, request.id, Refusal(request))], fate := s.fate + [Answered])
    else t.(fate := s.fate + [WriteFailed])
  }

  /** `handle_server_request`: the newcomer takes the place of an older request with its item id. */
  function Insert(s: State, k: nat): State
    requires k < |s.arrivals| && Forwarded(s.arrivals[k])
  {
    var item := s.arrivals[k].itemId;
    var fate := if item in s.pending then SetFate(s.fate, s.pending[item].arrival, Overwritten) else s.fate;
    s.(pending := s.pending[item := Entry(k, PendingOf(s.arrivals[k]))], fate := SetFate(fate, k, Pending))
  }

  /** `clear_pending_for_turn` */
  function Clear(s: State, turnId: string): State {
    s.(pending := map item | item in s.pending && s.pending[item].request.turnId != turnId :: s.pending[item],
       fate := seq(|s.fate|, i requires 0 <= i < |s.fate| =>
         if s.fate[i].Pending? && i < |s.arrivals| && s.arrivals[i].turnId == turnId then ClearedByTurn else s.fate[i]))
  }

  function Pump(s: State): State {
    if !s.pumpAlive || s.queue == [] then s
    else
      var t := s.(queue := s.queue[1..]);
      match s.queue[0]
      case Request(k) => if k < |s.arrivals| && Forwarded(s.arrivals[k]) then Insert(t, k) else t
      case TurnEnded(turnId, _) => Clear(t, turnId)
  }

  /** The pump task ends and its end of the channel is dropped with whatever was queued. */
  function StopPump(s: State): State {
    s.(pumpAlive := false, queue := [],
       fate := seq(|s.fate|, i requires 0 <= i < |s.fate| => if s.fate[i].Queued? then Dropped else s.fate[i]))
  }

  /** A reply takes its entry out of the map before it looks at the kind. */
  function Begin(s: State, callId: string, reply: Reply): State {
    if callId !in s.pending then s
    else
      var entry := s.pending[callId];
      var t := s.(pending := s.pending - {callId});
      match ReplyBody(entry.request, reply)
      case None => t.(fate := SetFate(s.fate, entry.arrival, WrongKind))
      case Some(b) => t.(replying := s.replying[entry.arrival := b], fate := SetFate(s.fate, entry.arrival, Replying))
  }

  function Finish(s: State, k: nat, writeOk: bool): State {
    if k !in s.replying || k >= |s.arrivals| then s
    else
      var t := s.(replying := s.replying - {k});
      if writeOk then
        t.(written := s.written + [Response(k, s.arrivals[k].id, s.replying[k])], fate := SetFate(s.fate, k, Answered))
      else t.(fate := SetFate(s.fate, k, WriteFailed))
  }

  function Next(s: State, step: Step): State {
    match step
    case ServerAsks(request, writeOk) => ReadRequest(s, request, writeOk)
    case ServerEndsTurn(turnId) => if s.pumpAlive then s.(queue := s.queue + [TurnEnded(turnId, |s.arrivals|)]) else s
    case PumpOne => Pump(s)
    case PumpStops => StopPump(s)
    case BeginReply(callId, reply) => Begin(s, callId, reply)
    case FinishReply(k, writeOk) => Finish(s, k, writeOk)
    case InterruptClears(turnId) => Clear(s, turnId)
  }

  function Run(s: State, steps: seq<Step>): State
    decreases |steps|
  {
    if steps == [] then s else Run(Next(s, steps[0]), steps[1..])
  }

  // ---------------------------------------------------------------- what every step keeps

  /** The answer is one the protocol gives this request: a refusal for what is not forwarded, a
      decision for command and file approvals, exactly the permissions asked for or none, an answer
      to the question asked. */
  predicate Fits(request: ServerRequest, body: Body) {
    if !request.wellFormed then body == Error(METHOD_NOT_FOUND)
    else if request.name == AUTH_REFRESH then body == Error(SERVER_ERROR)
    else if request.name == EXEC_APPROVAL || request.name == FILE_CHANGE_APPROVAL then
      body.Decision? && body.decision in {"accept", "acceptForSession", "decline"}
    else if request.name == PERMISSIONS_APPROVAL then
      body.Grant? && (body.permissions == request.permissions || body == Grant(EMPTY_OBJECT, "turn"))
    else if request.name == USER_INPUT then
      body.Answer? && body.questionId == if request.questionId.Some? then request.questionId.value else "answer"
    else body == Error(METHOD_NOT_FOUND)
  }

  ghost predicate FateIs(s: State, k: nat, f: Fate) {
    k < |s.arrivals| == |s.fate| && s.fate[k] == f
  }

  /** Forwarded requests wait in the channel in arrival order, each once. */
  ghost predicate QueueInv(s: State) {
    && (forall i :: 0 <= i < |s.queue| && s.queue[i].Request? ==>
          FateIs(s, s.queue[i].arrival, Queued) && Forwarded(s.arrivals[s.queue[i].arrival]))
    && (forall k: nat :: FateIs(s, k, Queued) ==> Request(k) in s.queue)
    && (forall i, j :: 0 <= i < j < |s.queue| && s.queue[i].Request? && s.queue[j].Request? ==>
          s.queue[i].arrival < s.queue[j].arrival)
    && (forall i, j :: 0 <= i < j < |s.queue| && s.queue[i].TurnEnded? && s.queue[j].Request? ==>
          s.queue[i].seen <= s.queue[j].arrival)
    && (!s.pumpAlive ==> s.queue == [])
    && (forall i :: 0 <= i < |s.queue| && s.queue[i].TurnEnded? ==> s.queue[i].seen <= |s.arrivals|)
  }

  /** The pending map and the pending fates are the same thing. */
  ghost predicate PendingInv(s: State) {
    && (forall item :: item in s.pending ==>
          var k := s.pending[item].arrival;
          FateIs(s, k, Pending) && Forwarded(s.arrivals[k]) && s.arrivals[k].itemId == item
          && s.pending[item].request == PendingOf(s.arrivals[k]))
    && (forall k: nat :: FateIs(s, k, Pending) ==>
          s.arrivals[k].itemId in s.pending && s.pending[s.arrivals[k].itemId].arrival == k)
  }

  ghost predicate ReplyingInv(s: State) {
    && (forall k :: k in s.replying ==> FateIs(s, k, Replying) && Fits(s.arrivals[k], s.replying[k]))
    && (forall k: nat :: FateIs(s, k, Replying) ==> k in s.replying)
  }

  /** Answered requests and written responses are the same thing, one response each. */
  ghost predicate WrittenInv(s: State) {
    && (forall i :: 0 <= i < |s.written| ==>
          FateIs(s, s.written[i].arrival, Answered) && s.written[i].id == s.arrivals[s.written[i].arrival].id
          && Fits(s.arrivals[s.written[i].arrival], s.written[i].body))
    && (forall i, j :: 0 <= i < j < |s.written| ==> s.written[i].arrival != s.written[j].arrival)
    && (forall k: nat :: FateIs(s, k, Answered) ==> exists i :: 0 <= i < |s.written| && s.written[i].arrival == k)
  }

  ghost predicate Inv(s: State) {
    |s.fate| == |s.arrivals| && QueueInv(s) && PendingInv(s) && ReplyingInv(s) && WrittenInv(s)
  }

  /** Two literals that differ at an index are different names. */
  lemma NamesDistinct()
    ensures KindOf(AUTH_REFRESH) == None
    ensures |EXEC_APPROVAL| != |PERMISSIONS_APPROVAL| && |EXEC_APPROVAL| != |USER_INPUT|
    ensures |PERMISSIONS_APPROVAL| != |USER_INPUT|
    ensures |FILE_CHANGE_APPROVAL| != |PERMISSIONS_APPROVAL| && |FILE_CHANGE_APPROVAL| != |USER_INPUT|
  {
    assert AUTH_REFRESH[0] == 'a' && EXEC_APPROVAL[0] == 'i' && FILE_CHANGE_APPROVAL[0] == 'i'
        && PERMISSIONS_APPROVAL[0] == 'i' && USER_INPUT[0] == 'i';
  }

  /** What a desktop reply tells the server, by the method it asked; None for a reply of the other kind. */
  function Meant(request: ServerRequest, reply: Reply): Option<Body> {
    if
      || request.name == "item/commandExecution/requestApproval"
      || request.name == "item/fileChange/requestApproval"
    then
      match reply
      case Approval(Allow) => Some(Decision("accept"))
      case Approval(AllowForSession) => Some(Decision("acceptForSession"))
      case Approval(Deny) => Some(Decision("decline"))
      case UserReply(_) => None
    else if request.name == "item/permissions/requestApproval" then
      match reply
      case Approval(Allow) => Some(Grant(request.permissions, "turn"))
      case Approval(AllowForSession) => Some(Grant(request.permissions, "session"))
      case Approval(Deny) => Some(Grant("{}", "turn"))
      case UserReply(_) => None
    else if request.name == "item/tool/requestUserInput" then
      match reply
      case Approval(_) => None
      case UserReply(text) =>
        Some(Answer(if request.questionId.Some? then request.questionId.value else "answer", text))
    else None
  }

  /** What is remembered of a request until it is answered. */
  lemma PendingExactly(request: ServerRequest)
    requires Forwarded(request)
    ensures var p := PendingOf(request);
      && p.id == request.id && p.threadId == request.threadId && p.turnId == request.turnId
      && (p.kind.ExecApproval? <==> request.name == "item/commandExecution/requestApproval")
      && (p.kind.FileChangeApproval? <==> request.name == "item/fileChange/requestApproval")
      && (p.kind.PermissionApproval? <==> request.name == "item/permissions/requestApproval")
      && (p.kind.UserInput? <==> request.name == "item/tool/requestUserInput")
      && p.questionId == (if p.kind.UserInput? then request.questionId else None)
      && p.permissions == (if p.kind.PermissionApproval? then Some(request.permissions) else None)
  {
    NamesDistinct();
    assert EXEC_APPROVAL[5] == 'c' && FILE_CHANGE_APPROVAL[5] == 'f';
  }

  lemma RepliesAsMeant(request: ServerRequest, reply: Reply)
    requires Forwarded(request)
    ensures ReplyBody(PendingOf(request), reply) == Meant(request, reply)
  {
    NamesDistinct();
  }

  /** What waits for the desktop, and with which code the reader refuses the rest. */
  lemma RefusedExactly(request: ServerRequest)
    ensures Forwarded(request) <==>
      && request.wellFormed
      && request.name in {"item/commandExecution/requestApproval", "item/fileChange/requestApproval",
                          "item/permissions/requestApproval", "item/tool/requestUserInput"}
    ensures Refusal(request)
      == Error(if request.wellFormed && request.name == "account/chatgptAuthTokens/refresh" then -32000 else -32601)
  {}

  lemma RefusalFits(request: ServerRequest)
    requires !Forwarded(request)
    ensures Fits(request, Refusal(request))
  {}

  lemma ReplyFits(request: ServerRequest, reply: Reply)
    requires Forwarded(request) && ReplyBody(PendingOf(request), reply).Some?
    ensures Fits(request, ReplyBody(PendingOf(request), reply).value)
  {
    NamesDistinct();
  }

  lemma ReadKeepsQueue(s: State, request: ServerRequest, writeOk: bool)
    requires Inv(s)
    ensures QueueInv(ReadRequest(s, request, writeOk))
  {
    hide PendingInv, ReplyingInv, WrittenInv, Forwarded, Refusal, PendingOf, Fits;
    if Forwarded(request) && s.pumpAlive { QueueGrows(s, request); }
  }

  lemma QueueGrows(s: State, request: ServerRequest)
    requires |s.fate| == |s.arrivals| && QueueInv(s) && Forwarded(request) && s.pumpAlive
    ensures QueueInv(s.(arrivals := s.arrivals + [request], queue := s.queue + [Request(|s.arrivals|)],
                        fate := s.fate + [Queued]))
  {
    hide Forwarded;
  }

  lemma ReadKeepsPending(s: State, request: ServerRequest, writeOk: bool)
    requires Inv(s)
    ensures PendingInv(ReadRequest(s, request, writeOk))
  {
    hide QueueInv, ReplyingInv, WrittenInv, PendingOf, Forwarded, Refusal;
  }

  lemma ReadKeepsReplying(s: State, request: ServerRequest, writeOk: bool)
    requires Inv(s)
    ensures ReplyingInv(ReadRequest(s, request, writeOk))
  {
    hide QueueInv, PendingInv, WrittenInv, Fits, Forwarded, Refusal;
  }

  lemma ReadKeepsWritten(s: State, request: ServerRequest, writeOk: bool)
    requires Inv(s)
    ensures WrittenInv(ReadRequest(s, request, writeOk))
  {
    var t := ReadRequest(s, request, writeOk);
    if !Forwarded(request) { RefusalFits(request); }
    hide QueueInv, PendingInv, ReplyingInv, Fits, Forwarded, Refusal;
    forall k: nat | FateIs(t, k, Answered) ensures exists i :: 0 <= i < |t.written| && t.written[i].arrival == k {
      if k < |s.arrivals| {
        assert FateIs(s, k, Answered);
        var i :| 0 <= i < |s.written| && s.written[i].arrival == k;
        assert t.written[i].arrival == k;
      } else {
        assert t.written[|s.written|].arrival == k;
      }
    }
  }

  lemma ReadKeepsInv(s: State, request: ServerRequest, writeOk: bool)
    requires Inv(s)
    ensures Inv(ReadRequest(s, request, writeOk))
  {
    ReadKeepsQueue(s, request, writeOk);
    ReadKeepsPending(s, request, writeOk);
    ReadKeepsReplying(s, request, writeOk);
    ReadKeepsWritten(s, request, writeOk);
  }

  /** The two states agree on which requests stand at `f`. */
  ghost predicate SameFates(s: State, t: State, f: Fate) {
    |t.fate| == |s.fate| && forall k :: 0 <= k < |s.fate| ==> (s.fate[k] == f <==> t.fate[k] == f)
  }

  lemma QueueCarries(s: State, t: State)
    requires QueueInv(s) && t.queue == s.queue && t.arrivals == s.arrivals && t.pumpAlive == s.pumpAlive
    requires SameFates(s, t, Queued)
    ensures QueueInv(t)
  {
    hide Forwarded;
    forall i | 0 <= i < |t.queue| && t.queue[i].Request?
      ensures FateIs(t, t.queue[i].arrival, Queued) && Forwarded(t.arrivals[t.queue[i].arrival])
    {
      assert FateIs(s, s.queue[i].arrival, Queued);
    }
    forall k: nat | FateIs(t, k, Queued) ensures Request(k) in t.queue { assert FateIs(s, k, Queued); }
  }

  lemma PendingCarries(s: State, t: State)
    requires PendingInv(s) && t.pending == s.pending && t.arrivals == s.arrivals && SameFates(s, t, Pending)
    ensures PendingInv(t)
  {
    hide Forwarded, PendingOf;
    forall k: nat | FateIs(t, k, Pending)
      ensures t.arrivals[k].itemId in t.pending && t.pending[t.arrivals[k].itemId].arrival == k
    {
      assert FateIs(s, k, Pending);
    }
  }

  lemma ReplyingCarries(s: State, t: State)
    requires ReplyingInv(s) && t.replying == s.replying && t.arrivals == s.arrivals && SameFates(s, t, Replying)
    ensures ReplyingInv(t)
  {
    hide Fits;
    forall k: nat | FateIs(t, k, Replying) ensures k in t.replying { assert FateIs(s, k, Replying); }
    forall k | k in t.replying ensures FateIs(t, k, Replying) { assert FateIs(s, k, Replying); }
  }

  /** Answered requests keep their responses when no response and no answered fate changes. */
  lemma WrittenCarries(s: State, t: State)
    requires WrittenInv(s) && t.written == s.written && t.arrivals == s.arrivals
    requires SameFates(s, t, Answered)
    ensures WrittenInv(t)
  {
    hide Fits;
    forall k: nat | FateIs(t, k, Answered) ensures exists i :: 0 <= i < |t.written| && t.written[i].arrival == k {
      assert FateIs(s, k, Answered);
    }
  }

  lemma InsertFates(s: State, k: nat)
    requires Inv(s) && FateIs(s, k, Queued) && Forwarded(s.arrivals[k])
    ensures SameFates(s, Insert(s, k), Replying) && SameFates(s, Insert(s, k), Answered)
    ensures forall i :: 0 <= i < |s.fate| ==> (Insert(s, k).fate[i] == Queued <==> s.fate[i] == Queued && i != k)
  {
    hide QueueInv, ReplyingInv, WrittenInv, PendingOf, Forwarded;
    var item := s.arrivals[k].itemId;
    if item in s.pending { assert FateIs(s, s.pending[item].arrival, Pending); }
  }

  lemma InsertKeepsPending(s: State, k: nat)
    requires Inv(s) && FateIs(s, k, Queued) && Forwarded(s.arrivals[k])
    ensures PendingInv(Insert(s, k))
  {
    hide QueueInv, ReplyingInv, WrittenInv, PendingOf, Forwarded;
    var t, item := Insert(s, k), s.arrivals[k].itemId;
    if item in s.pending { assert FateIs(s, s.pending[item].arrival, Pending); }
    forall m: nat | FateIs(t, m, Pending)
      ensures t.arrivals[m].itemId in t.pending && t.pending[t.arrivals[m].itemId].arrival == m
    {
      if m != k { assert FateIs(s, m, Pending); }
    }
  }

  lemma HeadIsQueued(s: State)
    requires QueueInv(s) && s.queue != [] && s.queue[0].Request?
    ensures FateIs(s, s.queue[0].arrival, Queued) && Forwarded(s.arrivals[s.queue[0].arrival])
  {}

  lemma InsertKeepsInv(s: State)
    requires Inv(s) && s.pumpAlive && s.queue != [] && s.queue[0].Request?
    ensures Inv(Pump(s))
  {
    hide QueueInv, PendingInv, ReplyingInv, WrittenInv, Fits, PendingOf, Forwarded;
    var k, t := s.queue[0].arrival, Pump(s);
    HeadIsQueued(s);
    InsertKeepsPending(s, k);
    InsertFates(s, k);
    assert t == Insert(s, k).(queue := s.queue[1..]);
    assert PendingInv(t) by { PendingCarries(Insert(s, k), t); }
    ReplyingCarries(s, t);
    WrittenCarries(s, t);
    QueueAdvances(s, t);
  }

  lemma QueueAdvances(s: State, t: State)
    requires Inv(s) && s.queue != [] && t.queue == s.queue[1..] && t.arrivals == s.arrivals
    requires t.pumpAlive == s.pumpAlive
    requires |t.fate| == |s.fate|
    requires forall k :: 0 <= k < |s.fate| ==>
      (t.fate[k] == Queued <==> s.fate[k] == Queued && s.queue[0] != Request(k))
    ensures QueueInv(t)
  {
    hide Forwarded;
    forall i | 0 <= i < |t.queue| && t.queue[i].Request?
      ensures FateIs(t, t.queue[i].arrival, Queued) && Forwarded(t.arrivals[t.queue[i].arrival])
    {
      assert t.queue[i] == s.queue[i+1];
      assert FateIs(s, s.queue[i+1].arrival, Queued);
    }
    forall k: nat | FateIs(t, k, Queued) ensures Request(k) in t.queue {
      assert FateIs(s, k, Queued);
    }
  }

  lemma ClearKeepsInv(s: State, turnId: string)
    requires Inv(s)
    ensures Inv(Clear(s, turnId))
  {
    hide QueueInv, ReplyingInv, WrittenInv, Fits, Forwarded;
    var t := Clear(s, turnId);
    WrittenCarries(s, t);
    QueueCarries(s, t);
    ReplyingCarries(s, t);
    assert PendingInv(t);
  }

  lemma StopKeepsInv(s: State)
    requires Inv(s)
    ensures Inv(StopPump(s))
  {
    hide WrittenInv, PendingInv, ReplyingInv, Fits, Forwarded, PendingOf;
    WrittenCarries(s, StopPump(s));
    PendingCarries(s, StopPump(s));
    ReplyingCarries(s, StopPump(s));
  }

  lemma BeginKeepsPending(s: State, callId: string, reply: Reply)
    requires Inv(s) && callId in s.pending
    ensures PendingInv(Begin(s, callId, reply))
  {
    hide QueueInv, ReplyingInv, WrittenInv, Fits, PendingOf, Forwarded, ReplyBody;
    assert FateIs(s, s.pending[callId].arrival, Pending);
  }

  lemma BeginFates(s: State, callId: string, reply: Reply)
    requires Inv(s) && callId in s.pending
    ensures SameFates(s, Begin(s, callId, reply), Queued) && SameFates(s, Begin(s, callId, reply), Answered)
  {
    hide QueueInv, PendingInv, ReplyingInv, WrittenInv, ReplyBody;
    EntryIsPending(s, callId);
  }

  lemma BegunBodyFits(s: State, callId: string, reply: Reply)
    requires Inv(s) && callId in s.pending && ReplyBody(s.pending[callId].request, reply).Some?
    ensures FateIs(s, s.pending[callId].arrival, Pending)
    ensures Fits(s.arrivals[s.pending[callId].arrival], ReplyBody(s.pending[callId].request, reply).value)
  {
    hide QueueInv, ReplyingInv, WrittenInv, Fits, PendingOf, Forwarded, ReplyBody;
    ReplyFits(s.arrivals[s.pending[callId].arrival], reply);
  }

  lemma EntryIsPending(s: State, callId: string)
    requires PendingInv(s) && callId in s.pending
    ensures FateIs(s, s.pending[callId].arrival, Pending)
  {}

  lemma BeginKeepsReplying(s: State, callId: string, reply: Reply)
    requires Inv(s) && callId in s.pending
    ensures ReplyingInv(Begin(s, callId, reply))
  {
    hide QueueInv, PendingInv, WrittenInv, Fits, PendingOf, Forwarded, ReplyBody;
    EntryIsPending(s, callId);
    if ReplyBody(s.pending[callId].request, reply).Some? { BegunBodyFits(s, callId, reply); }
  }

  lemma BeginKeepsInv(s: State, callId: string, reply: Reply)
    requires Inv(s)
    ensures Inv(Begin(s, callId, reply))
  {
    if callId in s.pending {
      BeginKeepsPending(s, callId, reply);
      BeginKeepsReplying(s, callId, reply);
      BeginFates(s, callId, reply);
      hide QueueInv, PendingInv, ReplyingInv, WrittenInv, ReplyBody, SameFates;
      WrittenCarries(s, Begin(s, callId, reply));
      QueueCarries(s, Begin(s, callId, reply));
    }
  }

  lemma FinishKeepsWritten(s: State, k: nat)
    requires Inv(s) && k in s.replying
    ensures WrittenInv(Finish(s, k, true))
  {
    var t := Finish(s, k, true);
    assert FateIs(s, k, Replying);
    hide QueueInv, PendingInv, Fits, Forwarded;
    forall m: nat | FateIs(t, m, Answered) ensures exists i :: 0 <= i < |t.written| && t.written[i].arrival == m {
      if m == k { assert t.written[|s.written|].arrival == m; }
      else {
        assert FateIs(s, m, Answered);
        var i :| 0 <= i < |s.written| && s.written[i].arrival == m;
        assert t.written[i].arrival == m;
      }
    }
  }

  lemma FinishKeepsReplying(s: State, k: nat, writeOk: bool)
    requires Inv(s)
    ensures ReplyingInv(Finish(s, k, writeOk))
  {
    hide QueueInv, PendingInv, WrittenInv, Fits;
  }

  lemma FinishKeepsInv(s: State, k: nat, writeOk: bool)
    requires Inv(s)
    ensures Inv(Finish(s, k, writeOk))
  {
    var t := Finish(s, k, writeOk);
    hide QueueInv, PendingInv, WrittenInv, Fits, Forwarded;
    if k in s.replying && k < |s.arrivals| {
      assert FateIs(s, k, Replying);
      FinishKeepsReplying(s, k, writeOk);
      hide ReplyingInv;
      if writeOk { FinishKeepsWritten(s, k); } else { WrittenCarries(s, t); }
      QueueCarries(s, t);
      PendingCarries(s, t);
    }
  }

  /** Every step keeps the invariant. */
  lemma NextKeepsInv(s: State, step: Step)
    requires Inv(s)
    ensures Inv(Next(s, step))
  {
    hide Inv;
    match step
    case ServerAsks(request, writeOk) => ReadKeepsInv(s, request, writeOk);
    case ServerEndsTurn(turnId) => EndTurnKeepsInv(s, turnId);
    case PumpOne => PumpKeepsInv(s);
    case PumpStops => StopKeepsInv(s);
    case BeginReply(callId, reply) => BeginKeepsInv(s, callId, reply);
    case FinishReply(k, writeOk) => FinishKeepsInv(s, k, writeOk);
    case InterruptClears(turnId) => ClearKeepsInv(s, turnId);
  }

  lemma EndTurnKeepsInv(s: State, turnId: string)
    requires Inv(s)
    ensures Inv(Next(s, ServerEndsTurn(turnId)))
  {
    hide Fits, PendingOf, Forwarded;
    var t := Next(s, ServerEndsTurn(turnId));
    if s.pumpAlive { WrittenCarries(s, t); }
  }

  lemma PumpKeepsInv(s: State)
    requires Inv(s)
    ensures Inv(Pump(s))
  {
    if s.pumpAlive && s.queue != [] {
      match s.queue[0]
      case Request(_) => InsertKeepsInv(s);
      case TurnEnded(turnId, _) =>
        var t := s.(queue := s.queue[1..]);
        hide Fits, PendingOf, Forwarded;
        QueueAdvances(s, t);
        WrittenCarries(s, t);
        assert Inv(t);
        ClearKeepsInv(t, turnId);
    }
  }

  lemma {:induction false} RunKeepsInv(s: State, steps: seq<Step>)
    requires Inv(s)
    ensures Inv(Run(s, steps))
    decreases |steps|
  {
    hide Inv, Next;
    if steps == [] {
    } else {
      NextKeepsInv(s, steps[0]);
      RunKeepsInv(Next(s, steps[0]), steps[1..]);
    }
  }
}
