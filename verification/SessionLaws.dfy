/** The session field by field: what moves each of its variables, over all calls, and what every call
    sends and reports. Commands are given by their bytes and stations by their configured addresses. */
module SessionLaws {
  import opened Types
  import opened Bits
  import opened Addressing
  import opened ControlField
  import opened Codec
  import opened Negotiation
  import opened SessionModel
  import opened SessionNegotiation

  // ----- Who is heard

  function Own(o: Options): HdlcAddress {
    match o.role
    case Client => o.clientAddress
    case Server => o.serverAddress
  }

  function Peer(o: Options): HdlcAddress {
    match o.role
    case Client => o.serverAddress
    case Server => o.clientAddress
  }

  /** The frame comes from the configured peer and is meant for this station. */
  predicate Addressed(o: Options, frame: Frame) {
    frame.destination == Own(o) && frame.source == Peer(o)
  }

  /** A frame of any kind from or for another station changes nothing and is reported as such, and no
      other frame is. */
  lemma StrangersRefused(s: Session, frame: Frame)
    ensures !Addressed(s.options, frame) ==> Receive(s, frame) == Reply(s, InvalidAddress, [])
    ensures Receive(s, frame).status == InvalidAddress <==> !Addressed(s.options, frame)
  {
    if Addressed(s.options, frame) && frame.control.Kind() == Unnumbered {
      UnnumberedStatus(s, frame);
    }
  }

  lemma UnnumberedStatus(s: Session, frame: Frame)
    ensures ReceiveUnnumbered(s, frame).status != InvalidAddress
  {
  }

  /** The calls without the frames of other stations. */
  function WithoutStrangers(o: Options, calls: seq<Call>): seq<Call> {
    if calls == [] then []
    else if calls[0].ReceiveFrame? && !Addressed(o, calls[0].frame) then WithoutStrangers(o, calls[1..])
    else [calls[0]] + WithoutStrangers(o, calls[1..])
  }

  /** Whatever is called and heard, frames of other stations make no difference. */
  lemma {:induction false} StrangersDoNotMatter(s: Session, o: Options, calls: seq<Call>)
    requires Consistent(s) && o.role == s.options.role
    requires o.clientAddress == s.options.clientAddress && o.serverAddress == s.options.serverAddress
    ensures Run(s, calls) == Run(s, WithoutStrangers(o, calls))
    decreases |calls|
  {
    if calls != [] {
      var t := Apply(s, calls[0]).session;
      StepKeeps(s, calls[0]);
      StrangersDoNotMatter(t, o, calls[1..]);
      if calls[0].ReceiveFrame? && !Addressed(o, calls[0].frame) {
        StrangersRefused(s, calls[0].frame);
      } else {
        FirstCall(s, calls[0], WithoutStrangers(o, calls[1..]));
      }
    }
  }

  lemma FirstCall(s: Session, call: Call, rest: seq<Call>)
    ensures Run(s, [call] + rest) == Run(Apply(s, call).session, rest)
  {
    assert ([call] + rest)[1..] == rest;
  }

  // ----- What takes effect

  /** The peer sends this unnumbered command, with the Poll/Final bit or without. */
  predicate Hears(s: Session, c: Call, command: Byte) {
    c.ReceiveFrame? && Addressed(s.options, c.frame) && (c.frame.control.raw == command || c.frame.control.raw == command + 0x10)
  }

  /** The Information of a connection request: a block, unless the default capability is proposed without
      user information, and then the user information. */
  function RequestInformation(o: Options, c: Call): seq<Byte>
    requires c.ConnectRequest? || c.ConnectRequestWith?
  {
    var k := o.capability;
    var block := EncodeBlock(Params(k.lengthTransmit, k.lengthReceive, k.windowTransmit, k.windowReceive));
    match c
    case ConnectRequest => if k == Capability(128, 128, 1, 1) then [] else block
    case ConnectRequestWith(user) => block + user
  }

  predicate Requests(s: Session, c: Call) {
    && (c.ConnectRequest? || c.ConnectRequestWith?)
    && s.options.role == Client && s.phase == Disconnected
    && Carries(s.options, |RequestInformation(s.options, c)|)
  }

  predicate Answers(s: Session, c: Call) {
    c.ConnectResponse? && MayAnswer(s)
  }

  predicate Leaves(s: Session, c: Call) {
    c.DisconnectRequest? && s.phase == Connected && Carries(s.options, |c.user|)
  }

  predicate LetsGo(s: Session, c: Call) {
    c.DisconnectResponse? && s.disconnectPending && Carries(s.options, 0)
  }

  predicate Dismisses(s: Session, c: Call) {
    c.DmResponse? && s.dmPending && Carries(s.options, 0)
  }

  predicate Sends(s: Session, c: Call) {
    && c.SendInformation? && s.phase == Connected && (s.vs - s.va) % 8 < s.window
    && Carries(s.options, |c.information|)
  }

  predicate Announces(s: Session, c: Call) {
    c.SendReceiveReady? && s.phase == Connected && Carries(s.options, 0)
  }

  /** N(R) in the control byte lies between V(A) and V(S). */
  predicate Acknowledges(s: Session, raw: Byte) {
    (raw / 0x20 - s.va) % 8 <= (s.vs - s.va) % 8
  }

  predicate TakesPayload(s: Session, c: Call) {
    && c.ReceiveFrame? && Addressed(s.options, c.frame) && s.phase == Connected
    && c.frame.control.raw % 2 == 0 && c.frame.control.raw / 2 % 8 == s.vr && Acknowledges(s, c.frame.control.raw)
  }

  predicate TakesReady(s: Session, c: Call) {
    && c.ReceiveFrame? && Addressed(s.options, c.frame) && s.phase == Connected
    && c.frame.control.raw % 4 == 1 && Acknowledges(s, c.frame.control.raw)
  }

  predicate IsAsked(s: Session, c: Call) {
    Hears(s, c, 0x83) && s.options.role == Server && s.phase == Disconnected
  }

  predicate Accepts(s: Session, c: Call) {
    IsAsked(s, c) && ParseField(c.frame.information).Success?
  }

  predicate Refuses(s: Session, c: Call) {
    IsAsked(s, c) && ParseField(c.frame.information).Failure?
  }

  predicate IsConfirmed(s: Session, c: Call) {
    Hears(s, c, 0x63) && s.phase == AwaitingConnection
  }

  predicate IsReleased(s: Session, c: Call) {
    Hears(s, c, 0x63) && s.phase == AwaitingDisconnect
  }

  predicate IsDropped(s: Session, c: Call) {
    Hears(s, c, 0x0f)
  }

  predicate IsTold(s: Session, c: Call) {
    Hears(s, c, 0x43) && s.phase == Connected
  }

  /** The call sends something. */
  predicate Builds(s: Session, c: Call) {
    Requests(s, c) || Answers(s, c) || Leaves(s, c) || LetsGo(s, c) || Dismisses(s, c) || Sends(s, c) || Announces(s, c)
  }

  /** The call takes something in. */
  predicate Takes(s: Session, c: Call) {
    TakesPayload(s, c) || TakesReady(s, c) || Accepts(s, c) || IsConfirmed(s, c) || IsReleased(s, c) || IsDropped(s, c) || IsTold(s, c)
  }

  // ----- The variables, one by one

  function NextPhase(s: Session, c: Call): Phase {
    if Requests(s, c) then AwaitingConnection
    else if Answers(s, c) || IsConfirmed(s, c) then Connected
    else if Leaves(s, c) then AwaitingDisconnect
    else if LetsGo(s, c) || IsReleased(s, c) || IsDropped(s, c) then Disconnected
    else s.phase
  }

  /** All three counters start again. */
  predicate Restarts(s: Session, c: Call) {
    Requests(s, c) || Answers(s, c) || LetsGo(s, c) || Accepts(s, c) || IsConfirmed(s, c) || IsReleased(s, c) || IsDropped(s, c)
  }

  function NextVs(s: Session, c: Call): Count8 {
    if Restarts(s, c) then 0 else if Sends(s, c) then (s.vs + 1) % 8 else s.vs
  }

  function NextVr(s: Session, c: Call): Count8 {
    if Restarts(s, c) then 0 else if TakesPayload(s, c) then (s.vr + 1) % 8 else s.vr
  }

  function NextVa(s: Session, c: Call): Count8 {
    if Restarts(s, c) then 0
    else if TakesPayload(s, c) || TakesReady(s, c) then c.frame.control.raw / 0x20
    else s.va
  }

  function NextConnectPending(s: Session, c: Call): bool {
    Accepts(s, c) || (s.connectPending && !Answers(s, c))
  }

  function NextDisconnectPending(s: Session, c: Call): bool {
    IsTold(s, c) || (s.disconnectPending && !LetsGo(s, c))
  }

  function NextDmPending(s: Session, c: Call): bool {
    Refuses(s, c) || (s.dmPending && !Dismisses(s, c))
  }

  /** A request starts a negotiation if a block stands in front of its Information, and ends an earlier one
      if none does or it cannot be read. */
  function NextPending(s: Session, c: Call): PendingNegotiation {
    if Accepts(s, c) && StartsBlock(c.frame.information) then
      PendingNegotiation(true, ParseField(c.frame.information).value.params)
    else if IsAsked(s, c) || Answers(s, c) then s.pending.(active := false)
    else s.pending
  }

  function NextUserInformation(s: Session, c: Call): seq<Byte> {
    if Accepts(s, c) then
      var consumed := ParseField(c.frame.information).value.consumed;
      if StartsBlock(c.frame.information) then c.frame.information[consumed..] else c.frame.information
    else if Refuses(s, c) then []
    else if IsTold(s, c) then c.frame.information
    else s.userInformation
  }

  /** New limits: what this side may transmit and must receive, and the windows for both. A server takes
      them when it is asked to answer, even if the answer then does not fit; a client from the answer. */
  function Adopted(s: Session, c: Call): Option<Capability> {
    if c.ConnectResponse? && s.options.role == Server && s.connectPending && s.pending.active then
      var p, k := s.pending.params, s.options.capability;
      Some(Capability(Min(p.maxInfoRx, k.lengthTransmit), Min(p.maxInfoTx, k.lengthReceive),
                      Min(p.windowRx, k.windowTransmit), Min(p.windowTx, k.windowReceive)))
    else if IsConfirmed(s, c) && StartsBlock(c.frame.information) && ParseField(c.frame.information).Success? then
      var p := ParseField(c.frame.information).value.params;
      Some(Capability(p.maxInfoTx, p.maxInfoRx, p.windowTx % 0x100, p.windowRx % 0x100))
    else None
  }

  /** The session after a call, put together from its variables. */
  function Next(s: Session, c: Call): Session {
    var limits := Adopted(s, c);
    Session(if limits.None? then s.options
            else s.options.(limits := s.options.limits.(maximumInformationFieldSize := limits.value.lengthTransmit)),
            NextPhase(s, c), NextVs(s, c), NextVr(s, c), NextVa(s, c),
            NextConnectPending(s, c), NextDisconnectPending(s, c), NextDmPending(s, c),
            NextPending(s, c),
            if limits.None? then s.negotiated else limits.value,
            if limits.None? then s.window else limits.value.windowTransmit,
            NextUserInformation(s, c))
  }

  // ----- Building, call by call

  lemma RequestBytes(s: Session, c: Call, negotiate: bool, user: seq<Byte>)
    requires (c == ConnectRequest && negotiate == (s.options.capability != DefaultCapability()) && user == [])
      || (c == ConnectRequestWith(user) && negotiate)
    ensures RequestInformation(s.options, c) == ConnectInformation(s.options, negotiate, user)
  {
    NormalisedFields(s.options.capability);
  }

  lemma NextRequest(s: Session, c: Call)
    requires c.ConnectRequest? || c.ConnectRequestWith?
    ensures Next(s, c) == if Requests(s, c) then Cleared(s).(phase := AwaitingConnection) else s
  {
  }

  lemma RequestDone(s: Session, negotiate: bool, user: seq<Byte>)
    ensures var r := BuildConnectRequest(s, negotiate, user);
      var may := s.options.role == Client && s.phase == Disconnected
                 && Carries(s.options, |ConnectInformation(s.options, negotiate, user)|);
      && r.session == (if may then Cleared(s).(phase := AwaitingConnection) else s)
      && (r.status == Ok <==> may)
  {
    BuildExact(s.options, SNRM, ConnectInformation(s.options, negotiate, user));
  }

  lemma RequestMoves(s: Session, c: Call, negotiate: bool, user: seq<Byte>)
    requires (c == ConnectRequest && negotiate == (s.options.capability != DefaultCapability()) && user == [])
      || (c == ConnectRequestWith(user) && negotiate)
    ensures BuildConnectRequest(s, negotiate, user).session == Next(s, c)
    ensures BuildConnectRequest(s, negotiate, user).status == Ok <==> Requests(s, c)
  {
    RequestBytes(s, c, negotiate, user);
    NextRequest(s, c);
    RequestDone(s, negotiate, user);
  }

  /** A frame that is built if it fits. */
  lemma FinishDone(s: Session, o: Options, control: HdlcControl, information: seq<Byte>, done: Session)
    ensures var r := Finish(s, BuildFrame(o, control, information), done);
      && r.session == (if Carries(o, |information|) then done else s)
      && (r.status == Ok <==> Carries(o, |information|))
  {
    BuildExact(o, control, information);
  }

  lemma AnswerMoves(s: Session)
    ensures BuildConnectResponse(s).session == Next(s, ConnectResponse)
    ensures BuildConnectResponse(s).status == Ok <==> Answers(s, ConnectResponse)
  {
    AnswerBuilt(s);
    NextAnswer(s);
    AnswerDone(s);
  }

  function Confirmed(t: Session): Session {
    Cleared(t).(phase := Connected, connectPending := false, pending := t.pending.(active := false))
  }

  lemma NextAnswer(s: Session)
    ensures Next(s, ConnectResponse) ==
      var t := if s.options.role == Server && s.connectPending then ApplyAnswer(s) else s;
      if MayAnswer(s) then Confirmed(t) else t
  {
  }

  lemma AnswerDone(s: Session)
    ensures BuildConnectResponse(s).session ==
      var t := if s.options.role == Server && s.connectPending then ApplyAnswer(s) else s;
      if BuildConnectResponse(s).status == Ok then Confirmed(t) else t
  {
    if s.options.role == Server && s.connectPending {
      AnswerEnds(ApplyAnswer(s), BuildFrame(ApplyAnswer(s).options, UA, AnswerInformation(s)));
    }
  }

  lemma AnswerEnds(t: Session, built: Result<seq<Byte>>)
    requires built.Failure? ==> built.status != Ok
    ensures FinishConnect(t, built).session == if FinishConnect(t, built).status == Ok then Confirmed(t) else t
  {
  }

  lemma DisconnectMoves(s: Session, user: seq<Byte>)
    ensures BuildDisconnectRequest(s, user).session == Next(s, DisconnectRequest(user))
    ensures BuildDisconnectRequest(s, user).status == Ok <==> Leaves(s, DisconnectRequest(user))
  {
    FinishDone(s, s.options, DISC, user, s.(phase := AwaitingDisconnect));
    NextDisconnect(s, DisconnectRequest(user));
  }

  lemma NextDisconnect(s: Session, c: Call)
    requires c.DisconnectRequest?
    ensures Next(s, c) == if Leaves(s, c) then s.(phase := AwaitingDisconnect) else s
  {
  }

  lemma LetGoMoves(s: Session)
    ensures BuildDisconnectResponse(s).session == Next(s, DisconnectResponse)
    ensures BuildDisconnectResponse(s).status == Ok <==> LetsGo(s, DisconnectResponse)
  {
    FinishDone(s, s.options, UA, [], Cleared(s).(phase := Disconnected, disconnectPending := false));
    NextLetGo(s);
  }

  lemma NextLetGo(s: Session)
    ensures Next(s, DisconnectResponse) ==
      if LetsGo(s, DisconnectResponse) then Cleared(s).(phase := Disconnected, disconnectPending := false) else s
  {
  }

  lemma DismissMoves(s: Session)
    ensures BuildDmResponse(s).session == Next(s, DmResponse)
    ensures BuildDmResponse(s).status == Ok <==> Dismisses(s, DmResponse)
  {
    FinishDone(s, s.options, DM, [], s.(dmPending := false));
    NextDismiss(s);
  }

  lemma NextDismiss(s: Session)
    ensures Next(s, DmResponse) == if Dismisses(s, DmResponse) then s.(dmPending := false) else s
  {
  }

  lemma SendDone(s: Session, information: seq<Byte>, pollFinal: bool)
    ensures var r, may := BuildInformation(s, information, pollFinal), s.phase == Connected && CanSend(s) && Carries(s.options, |information|);
      && r.session == (if may then s.(vs := NextSequence(s.vs)) else s)
      && (r.status == Ok <==> may)
  {
    var control := InformationControl(s.vs, s.vr, pollFinal);
    FinishDone(s, s.options, control, information, s.(vs := NextSequence(s.vs)));
  }

  lemma SendMoves(s: Session, information: seq<Byte>, pollFinal: bool)
    ensures BuildInformation(s, information, pollFinal).session == Next(s, SendInformation(information, pollFinal))
    ensures BuildInformation(s, information, pollFinal).status == Ok <==> Sends(s, SendInformation(information, pollFinal))
  {
    SendDone(s, information, pollFinal);
    NextSend(s, SendInformation(information, pollFinal));
    MaySend(s, SendInformation(information, pollFinal));
  }

  lemma MaySend(s: Session, c: Call)
    requires c.SendInformation?
    ensures Sends(s, c) <==> s.phase == Connected && CanSend(s) && Carries(s.options, |c.information|)
  {
  }

  lemma NextSend(s: Session, c: Call)
    requires c.SendInformation?
    ensures Next(s, c) == if Sends(s, c) then s.(vs := (s.vs + 1) % 8) else s
  {
  }

  lemma AnnounceDone(s: Session, pollFinal: bool)
    ensures var r := BuildReceiveReady(s, pollFinal);
      r.session == s && (r.status == Ok <==> s.phase == Connected && Carries(s.options, 0))
  {
    FinishDone(s, s.options, ReceiveReadyControl(s.vr, pollFinal), [], s);
  }

  lemma AnnounceMoves(s: Session, pollFinal: bool)
    ensures BuildReceiveReady(s, pollFinal).session == s == Next(s, SendReceiveReady(pollFinal))
    ensures BuildReceiveReady(s, pollFinal).status == Ok <==> Announces(s, SendReceiveReady(pollFinal))
  {
    AnnounceDone(s, pollFinal);
    NextAnnounce(s, SendReceiveReady(pollFinal));
  }

  lemma NextAnnounce(s: Session, c: Call)
    requires c.SendReceiveReady?
    ensures Next(s, c) == s
  {
  }

  // ----- Receiving, kind by kind

  lemma PayloadMoves(s: Session, c: Call)
    requires c.ReceiveFrame? && Addressed(s.options, c.frame) && c.frame.control.raw % 2 == 0
    ensures ReceiveInformation(s, c.frame).session == Next(s, c)
    ensures ReceiveInformation(s, c.frame).status == Ok <==> TakesPayload(s, c)
  {
    NextPayload(s, c);
  }

  lemma NextPayload(s: Session, c: Call)
    requires c.ReceiveFrame? && c.frame.control.raw % 2 == 0
    ensures Next(s, c) ==
      if TakesPayload(s, c) then s.(va := c.frame.control.raw / 0x20, vr := (s.vr + 1) % 8) else s
  {
  }

  lemma ReadyMoves(s: Session, c: Call)
    requires c.ReceiveFrame? && Addressed(s.options, c.frame) && c.frame.control.raw % 4 == 1
    ensures ReceiveSupervisory(s, c.frame).session == Next(s, c)
    ensures ReceiveSupervisory(s, c.frame).status == Ok <==> TakesReady(s, c)
  {
    NextReady(s, c);
  }

  lemma NextReady(s: Session, c: Call)
    requires c.ReceiveFrame? && c.frame.control.raw % 4 == 1
    ensures Next(s, c) == if TakesReady(s, c) then s.(va := c.frame.control.raw / 0x20) else s
  {
  }

  lemma SnrmMoves(s: Session, c: Call)
    requires Hears(s, c, 0x83)
    ensures ReceiveSnrm(s, c.frame.information).session == Next(s, c)
    ensures ReceiveSnrm(s, c.frame.information).status == Ok <==> Accepts(s, c)
  {
    BlockExact(c.frame.information);
    NextSnrm(s, c);
    if c.frame.information == [] {
      assert c.frame.information[0..] == [];
    }
  }

  lemma NextSnrm(s: Session, c: Call)
    requires Hears(s, c, 0x83)
    ensures Next(s, c) ==
      if Accepts(s, c) then Cleared(s).(connectPending := true, pending := NextPending(s, c), userInformation := NextUserInformation(s, c))
      else if Refuses(s, c) then s.(dmPending := true, pending := s.pending.(active := false), userInformation := [])
      else s
  {
  }

  lemma UaMoves(s: Session, c: Call)
    requires Hears(s, c, 0x63)
    ensures ReceiveUa(s, c.frame.information).session == Next(s, c)
    ensures ReceiveUa(s, c.frame.information).status == Ok <==> IsConfirmed(s, c) || IsReleased(s, c)
  {
    BlockExact(c.frame.information);
    NextUa(s, c);
  }

  lemma NextUa(s: Session, c: Call)
    requires Hears(s, c, 0x63)
    ensures Next(s, c) ==
      if IsConfirmed(s, c) then Cleared(WithLimits(s, Adopted(s, c))).(phase := Connected)
      else if IsReleased(s, c) then Cleared(s).(phase := Disconnected)
      else s
  {
  }

  function WithLimits(s: Session, limits: Option<Capability>): Session {
    match limits
    case None => s
    case Some(k) =>
      s.(options := s.options.(limits := s.options.limits.(maximumInformationFieldSize := k.lengthTransmit)),
         negotiated := k, window := k.windowTransmit)
  }

  lemma OtherMoves(s: Session, c: Call)
    requires c.ReceiveFrame? && Addressed(s.options, c.frame) && c.frame.control.raw % 4 == 3
    requires !Hears(s, c, 0x83) && !Hears(s, c, 0x63)
    ensures ReceiveUnnumbered(s, c.frame).session == Next(s, c)
    ensures ReceiveUnnumbered(s, c.frame).status == Ok <==> IsDropped(s, c) || IsTold(s, c)
  {
    UnnumberedBytes(c.frame.control);
    NextOther(s, c);
  }

  lemma NextOther(s: Session, c: Call)
    requires c.ReceiveFrame? && c.frame.control.raw % 4 == 3 && !Hears(s, c, 0x83) && !Hears(s, c, 0x63)
    ensures Next(s, c) ==
      if IsDropped(s, c) then Cleared(s).(phase := Disconnected)
      else if IsTold(s, c) then s.(disconnectPending := true, userInformation := c.frame.information)
      else s
  {
  }

  lemma NextStranger(s: Session, c: Call)
    requires c.ReceiveFrame? && !Addressed(s.options, c.frame)
    ensures Next(s, c) == s && !Takes(s, c)
  {
  }

  lemma CommandMoves(s: Session, c: Call)
    requires c.ReceiveFrame? && Addressed(s.options, c.frame) && c.frame.control.raw % 4 == 3
    ensures ReceiveUnnumbered(s, c.frame).session == Next(s, c)
    ensures ReceiveUnnumbered(s, c.frame).status == Ok <==> Takes(s, c)
  {
    UnnumberedBytes(c.frame.control);
    OneCommand(s, c);
    if Hears(s, c, 0x83) {
      SnrmMoves(s, c);
    } else if Hears(s, c, 0x63) {
      UaMoves(s, c);
    } else {
      OtherMoves(s, c);
    }
  }

  /** Each command is taken in in its own way only. */
  lemma OneCommand(s: Session, c: Call)
    requires c.ReceiveFrame? && c.frame.control.raw % 4 == 3
    ensures Hears(s, c, 0x83) ==> (Takes(s, c) <==> Accepts(s, c))
    ensures Hears(s, c, 0x63) ==> (Takes(s, c) <==> IsConfirmed(s, c) || IsReleased(s, c))
    ensures !Hears(s, c, 0x83) && !Hears(s, c, 0x63) ==> (Takes(s, c) <==> IsDropped(s, c) || IsTold(s, c))
  {
  }

  lemma OneKind(s: Session, c: Call)
    requires c.ReceiveFrame?
    ensures c.frame.control.raw % 4 != 3 ==> (Takes(s, c) <==> TakesPayload(s, c) || TakesReady(s, c))
    ensures c.frame.control.raw % 2 == 0 ==> !TakesReady(s, c)
    ensures c.frame.control.raw % 4 == 1 ==> !TakesPayload(s, c)
  {
  }

  /** What becomes of a frame from the peer is decided by the two lowest bits of its control byte. */
  lemma Dispatched(s: Session, frame: Frame)
    requires Addressed(s.options, frame)
    ensures Receive(s, frame) ==
      if frame.control.raw % 2 == 0 then ReceiveInformation(s, frame)
      else if frame.control.raw % 4 == 1 then ReceiveSupervisory(s, frame)
      else ReceiveUnnumbered(s, frame)
  {
  }

  lemma PeerMoves(s: Session, c: Call, r: Reply)
    requires c.ReceiveFrame? && Addressed(s.options, c.frame)
    requires r ==
      if c.frame.control.raw % 2 == 0 then ReceiveInformation(s, c.frame)
      else if c.frame.control.raw % 4 == 1 then ReceiveSupervisory(s, c.frame)
      else ReceiveUnnumbered(s, c.frame)
    ensures r.session == Next(s, c)
    ensures r.status == Ok <==> Takes(s, c)
  {
    OneKind(s, c);
    if c.frame.control.raw % 2 == 0 {
      PayloadMoves(s, c);
    } else if c.frame.control.raw % 4 == 1 {
      ReadyMoves(s, c);
    } else {
      CommandMoves(s, c);
    }
  }

  lemma HeardMoves(s: Session, c: Call)
    requires c.ReceiveFrame?
    ensures Receive(s, c.frame).session == Next(s, c)
    ensures Receive(s, c.frame).status == Ok <==> Takes(s, c)
  {
    if Addressed(s.options, c.frame) {
      Dispatched(s, c.frame);
      PeerMoves(s, c, Receive(s, c.frame));
    } else {
      StrangersRefused(s, c.frame);
      NextStranger(s, c);
    }
  }

  lemma RequestApplied(s: Session, c: Call)
    requires c.ConnectRequest? || c.ConnectRequestWith?
    ensures Apply(s, c).session == Next(s, c)
    ensures Apply(s, c).status == Ok <==> Requests(s, c)
  {
    match c
    case ConnectRequest => RequestMoves(s, c, s.options.capability != DefaultCapability(), []);
    case ConnectRequestWith(user) => RequestMoves(s, c, true, user);
  }

  /** Each call builds in its own way only. */
  lemma OneWay(s: Session, c: Call)
    requires c.ConnectRequest? || c.ConnectRequestWith? || c.ConnectResponse?
    ensures Builds(s, c) <==> Requests(s, c) || Answers(s, c)
    ensures c.ConnectResponse? ==> !Requests(s, c)
    ensures !c.ConnectResponse? ==> !Answers(s, c)
  {
  }

  lemma ConnectionMoves(s: Session, c: Call)
    requires c.ConnectRequest? || c.ConnectRequestWith? || c.ConnectResponse?
    ensures Apply(s, c).session == Next(s, c)
    ensures Apply(s, c).status == Ok <==> Builds(s, c)
  {
    OneWay(s, c);
    if c.ConnectResponse? {
      AnswerMoves(s);
    } else {
      RequestApplied(s, c);
    }
  }

  lemma BuildMoves(s: Session, c: Call)
    requires !c.ReceiveFrame?
    ensures Apply(s, c).session == Next(s, c)
    ensures Apply(s, c).status == Ok <==> Builds(s, c)
  {
    match c
    case DisconnectRequest(user) => DisconnectMoves(s, user);
    case DisconnectResponse => LetGoMoves(s);
    case DmResponse => DismissMoves(s);
    case SendInformation(information, pollFinal) => SendMoves(s, information, pollFinal);
    case SendReceiveReady(pollFinal) => AnnounceMoves(s, pollFinal);
    case _ => ConnectionMoves(s, c);
  }

  /** Every call moves exactly the variables that it should, and it reports Ok exactly if it sends something
      or takes something in. */
  lemma CallMoves(s: Session, c: Call)
    ensures Apply(s, c).session == Next(s, c)
    ensures Apply(s, c).status == Ok <==> Builds(s, c) || Takes(s, c)
  {
    if c.ReceiveFrame? {
      HeardMoves(s, c);
    } else {
      BuildMoves(s, c);
    }
  }

  // ----- What is sent

  /** A numbered control byte from its parts. */
  function Numbered(nr: Count8, pollFinal: bool, low: nat): HdlcControl
    requires low < 0x10 && low % 4 != 3
  {
    ControlParts(0x20 * nr + (if pollFinal then 0x10 else 0) + low, low, if pollFinal then 1 else 0, nr);
    Control(0x20 * nr + (if pollFinal then 0x10 else 0) + low)
  }

  /** The control byte of what a call sends. The commands ask for a response or are final. */
  function SentControl(s: Session, c: Call): HdlcControl
    requires !c.ReceiveFrame?
  {
    match c
    case ConnectRequest => Control(0x93)
    case ConnectRequestWith(_) => Control(0x93)
    case ConnectResponse => Control(0x73)
    case DisconnectRequest(_) => Control(0x53)
    case DisconnectResponse => Control(0x73)
    case DmResponse => Control(0x1f)
    case SendInformation(_, pollFinal) => Numbered(s.vr, pollFinal, 2 * s.vs)
    case SendReceiveReady(pollFinal) => Numbered(s.vr, pollFinal, 1)
  }

  function SentInformation(s: Session, c: Call): seq<Byte>
    requires !c.ReceiveFrame?
  {
    match c
    case ConnectRequest => RequestInformation(s.options, c)
    case ConnectRequestWith(_) => RequestInformation(s.options, c)
    case ConnectResponse =>
      if !s.pending.active then []
      else
        var p, k := s.pending.params, s.options.capability;
        EncodeBlock(Params(Min(p.maxInfoTx, k.lengthReceive), Min(p.maxInfoRx, k.lengthTransmit),
                           Min(p.windowTx, k.windowReceive), Min(p.windowRx, k.windowTransmit)))
    case DisconnectRequest(user) => user
    case DisconnectResponse => []
    case DmResponse => []
    case SendInformation(information, _) => information
    case SendReceiveReady(_) => []
  }

  /** What a call sends: never segmented, from this station to its peer. */
  function Sent(s: Session, c: Call): Frame
    requires !c.ReceiveFrame?
  {
    Frame(false, Peer(s.options), Own(s.options), SentControl(s, c), SentInformation(s, c))
  }

  /** The limits under which it is encoded: a server has already taken those that it answers with. */
  function InForce(s: Session, c: Call): Limits {
    var limits := Adopted(s, c);
    if limits.None? then s.options.limits
    else s.options.limits.(maximumInformationFieldSize := limits.value.lengthTransmit)
  }

  /** The call is not for this role. */
  predicate WrongRole(s: Session, c: Call) {
    match c
    case ConnectRequest => s.options.role != Client
    case ConnectRequestWith(_) => s.options.role != Client
    case ConnectResponse => s.options.role != Server
    case _ => false
  }

  /** There is nothing to answer, no connection, one already, or no room in the window. */
  predicate WrongMoment(s: Session, c: Call) {
    match c
    case ConnectRequest => s.phase != Disconnected
    case ConnectRequestWith(_) => s.phase != Disconnected
    case ConnectResponse => !s.connectPending
    case DisconnectRequest(_) => s.phase != Connected
    case DisconnectResponse => !s.disconnectPending
    case DmResponse => !s.dmPending
    case SendInformation(_, _) => s.phase != Connected || (s.vs - s.va) % 8 >= s.window
    case SendReceiveReady(_) => s.phase != Connected
    case ReceiveFrame(_) => false
  }

  /** A reply that sends this frame if it can be encoded under these limits. */
  ghost predicate Delivers(r: Reply, frame: Frame, limits: Limits) {
    && r.status == EncodeStatus(frame, limits)
    && (if r.status == Ok then DecodeFrame(r.output, DefaultLimits()) == Success(frame) else r.output == [])
  }

  lemma FinishDelivers(s: Session, o: Options, control: HdlcControl, information: seq<Byte>, done: Session)
    ensures Delivers(Finish(s, BuildFrame(o, control, information), done), FrameTo(o, control, information), o.limits)
  {
    if BuildFrame(o, control, information).Success? {
      BuiltDecodes(o, control, information);
    }
  }

  lemma OwnFrame(o: Options, control: HdlcControl, information: seq<Byte>)
    ensures FrameTo(o, control, information) == Frame(false, Peer(o), Own(o), control, information)
  {
  }

  lemma RequestDelivers(s: Session, information: seq<Byte>, negotiate: bool, user: seq<Byte>)
    requires s.options.role == Client && s.phase == Disconnected
    requires information == ConnectInformation(s.options, negotiate, user)
    ensures Delivers(BuildConnectRequest(s, negotiate, user), FrameTo(s.options, SNRM, information), s.options.limits)
  {
    FinishDelivers(s, s.options, SNRM, information, Cleared(s).(phase := AwaitingConnection));
  }

  lemma RequestSent(s: Session, c: Call)
    requires c.ConnectRequest? || c.ConnectRequestWith?
    ensures InForce(s, c) == s.options.limits
    ensures Sent(s, c) == Frame(false, Peer(s.options), Own(s.options), Control(0x93), RequestInformation(s.options, c))
  {
  }

  lemma RequestSays(s: Session, c: Call, negotiate: bool, user: seq<Byte>)
    requires (c == ConnectRequest && negotiate == (s.options.capability != DefaultCapability()) && user == [])
      || (c == ConnectRequestWith(user) && negotiate)
    requires s.options.role == Client && s.phase == Disconnected
    ensures Delivers(BuildConnectRequest(s, negotiate, user), Sent(s, c), InForce(s, c))
  {
    RequestBytes(s, c, negotiate, user);
    RequestSent(s, c);
    RequestDelivers(s, RequestInformation(s.options, c), negotiate, user);
    OwnFrame(s.options, SNRM, RequestInformation(s.options, c));
  }

  lemma AnswerSays(s: Session)
    requires !WrongRole(s, ConnectResponse) && !WrongMoment(s, ConnectResponse)
    ensures Delivers(BuildConnectResponse(s), Sent(s, ConnectResponse), InForce(s, ConnectResponse))
  {
    var t := ApplyAnswer(s);
    OwnFrame(t.options, UA, AnswerInformation(s));
    FinishDelivers(t, t.options, UA, AnswerInformation(s), Confirmed(t));
  }

  lemma PayloadSays(s: Session, information: seq<Byte>, pollFinal: bool)
    requires !WrongMoment(s, SendInformation(information, pollFinal))
    ensures Delivers(BuildInformation(s, information, pollFinal),
                     Frame(false, Peer(s.options), Own(s.options), InformationControl(s.vs, s.vr, pollFinal), information), s.options.limits)
  {
    var control := InformationControl(s.vs, s.vr, pollFinal);
    OwnFrame(s.options, control, information);
    FinishDelivers(s, s.options, control, information, s.(vs := NextSequence(s.vs)));
  }

  lemma AnnouncementSays(s: Session, pollFinal: bool)
    requires !WrongMoment(s, SendReceiveReady(pollFinal))
    ensures Delivers(BuildReceiveReady(s, pollFinal),
                     Frame(false, Peer(s.options), Own(s.options), ReceiveReadyControl(s.vr, pollFinal), []), s.options.limits)
  {
    var control := ReceiveReadyControl(s.vr, pollFinal);
    OwnFrame(s.options, control, []);
    FinishDelivers(s, s.options, control, [], s);
  }

  lemma NumberedSent(s: Session, c: Call)
    requires c.SendInformation? || c.SendReceiveReady?
    ensures InForce(s, c) == s.options.limits
    ensures c.SendInformation? ==>
      Sent(s, c) == Frame(false, Peer(s.options), Own(s.options), InformationControl(s.vs, s.vr, c.pollFinal), c.information)
    ensures c.SendReceiveReady? ==>
      Sent(s, c) == Frame(false, Peer(s.options), Own(s.options), ReceiveReadyControl(s.vr, c.pollFinal), [])
  {
  }

  lemma NumberedSays(s: Session, c: Call)
    requires (c.SendInformation? || c.SendReceiveReady?) && !WrongMoment(s, c)
    ensures Delivers(Apply(s, c), Sent(s, c), InForce(s, c))
  {
    NumberedSent(s, c);
    match c
    case SendInformation(information, pollFinal) => PayloadSays(s, information, pollFinal);
    case SendReceiveReady(pollFinal) => AnnouncementSays(s, pollFinal);
  }

  /** The plain reply of a call that ends something. */
  lemma PartingDelivers(s: Session, user: seq<Byte>)
    ensures s.phase == Connected ==>
      Delivers(BuildDisconnectRequest(s, user), Frame(false, Peer(s.options), Own(s.options), DISC, user), s.options.limits)
    ensures s.disconnectPending ==>
      Delivers(BuildDisconnectResponse(s), Frame(false, Peer(s.options), Own(s.options), UA, []), s.options.limits)
    ensures s.dmPending ==>
      Delivers(BuildDmResponse(s), Frame(false, Peer(s.options), Own(s.options), DM, []), s.options.limits)
  {
    FinishDelivers(s, s.options, DISC, user, s.(phase := AwaitingDisconnect));
    FinishDelivers(s, s.options, UA, [], Cleared(s).(phase := Disconnected, disconnectPending := false));
    FinishDelivers(s, s.options, DM, [], s.(dmPending := false));
  }

  lemma PartingSays(s: Session, c: Call)
    requires (c.DisconnectRequest? || c.DisconnectResponse? || c.DmResponse?) && !WrongMoment(s, c)
    ensures Delivers(Apply(s, c), Sent(s, c), InForce(s, c))
  {
    PartingDelivers(s, if c.DisconnectRequest? then c.user else []);
  }

  /** What every call sends and reports: UnsupportedFeature for the wrong role, then UnsupportedFrame at the
      wrong moment, then what the encoder says; and if that is Ok, bytes that decode to the frame above. */
  lemma CallSays(s: Session, c: Call)
    requires !c.ReceiveFrame?
    ensures WrongRole(s, c) ==> Apply(s, c).status == UnsupportedFeature && Apply(s, c).output == []
    ensures !WrongRole(s, c) && WrongMoment(s, c) ==> Apply(s, c).status == UnsupportedFrame && Apply(s, c).output == []
    ensures !WrongRole(s, c) && !WrongMoment(s, c) ==> Delivers(Apply(s, c), Sent(s, c), InForce(s, c))
  {
    if WrongRole(s, c) || WrongMoment(s, c) {
      RefusedCall(s, c);
    } else {
      match c
      case ConnectRequest => RequestSays(s, c, s.options.capability != DefaultCapability(), []);
      case ConnectRequestWith(user) => RequestSays(s, c, true, user);
      case ConnectResponse => AnswerSays(s);
      case SendInformation(_, _) => NumberedSays(s, c);
      case SendReceiveReady(_) => NumberedSays(s, c);
      case _ => PartingSays(s, c);
    }
  }

  lemma RefusedCall(s: Session, c: Call)
    requires WrongRole(s, c) || WrongMoment(s, c)
    ensures Apply(s, c).status == (if WrongRole(s, c) then UnsupportedFeature else UnsupportedFrame)
    ensures Apply(s, c).output == []
  {
  }

  /** Every frame that says where this side stands is a receive-ready with N(R) equal to V(R). */
  lemma ReadySays(s: Session, pollFinal: bool)
    ensures var control := SentControl(s, SendReceiveReady(pollFinal));
      && control.SupervisoryCommand() == Success(ReceiveReady)
      && control.ReceiveSequence() == s.vr && control.PollFinal() == pollFinal
    ensures var r := BuildReceiveReady(s, pollFinal);
      r.status == Ok ==>
        var frame := DecodeFrame(r.output, DefaultLimits());
        && frame.Success?
        && frame.value.control.SupervisoryCommand() == Success(ReceiveReady)
        && frame.value.control.ReceiveSequence() == s.vr && frame.value.control.PollFinal() == pollFinal
  {
    NumberedBytes(SentControl(s, SendReceiveReady(pollFinal)), 1, pollFinal, s.vr);
    CallSays(s, SendReceiveReady(pollFinal));
  }

  /** What is not taken in is refused: as a stranger's, as out of place, as numbered wrongly, or as a
      request that cannot be read. */
  lemma HeardRefused(s: Session, frame: Frame)
    requires !Takes(s, ReceiveFrame(frame))
    ensures Receive(s, frame).status ==
      if !Addressed(s.options, frame) then InvalidAddress
      else if frame.control.raw % 4 != 3 then (if s.phase == Connected then InvalidControlField else UnsupportedFrame)
      else if Refuses(s, ReceiveFrame(frame)) then ParseField(frame.information).status
      else UnsupportedFrame
  {
    StrangersRefused(s, frame);
    UnnumberedBytes(frame.control);
    if Addressed(s.options, frame) {
      if frame.control.raw % 4 != 3 {
        NumberedRefused(s, frame);
      } else {
        CommandRefused(s, frame);
      }
    }
  }

  lemma PayloadRefused(s: Session, frame: Frame)
    requires !TakesPayload(s, ReceiveFrame(frame)) && Addressed(s.options, frame) && frame.control.raw % 2 == 0
    ensures ReceiveInformation(s, frame).status == if s.phase == Connected then InvalidControlField else UnsupportedFrame
  {
    PayloadMoves(s, ReceiveFrame(frame));
    PayloadStatus(s, frame);
  }

  lemma ReadyRefused(s: Session, frame: Frame)
    requires !TakesReady(s, ReceiveFrame(frame)) && Addressed(s.options, frame) && frame.control.raw % 4 == 1
    ensures ReceiveSupervisory(s, frame).status == if s.phase == Connected then InvalidControlField else UnsupportedFrame
  {
    ReadyMoves(s, ReceiveFrame(frame));
    ReadyStatus(s, frame);
  }

  lemma NumberedRefused(s: Session, frame: Frame)
    requires !Takes(s, ReceiveFrame(frame)) && Addressed(s.options, frame) && frame.control.raw % 4 != 3
    ensures Receive(s, frame).status == if s.phase == Connected then InvalidControlField else UnsupportedFrame
  {
    OneKind(s, ReceiveFrame(frame));
    if frame.control.raw % 2 == 0 {
      PayloadRefused(s, frame);
    } else {
      ReadyRefused(s, frame);
    }
  }

  lemma PayloadStatus(s: Session, frame: Frame)
    ensures ReceiveInformation(s, frame).status in {Ok, if s.phase == Connected then InvalidControlField else UnsupportedFrame}
  {
  }

  lemma ReadyStatus(s: Session, frame: Frame)
    ensures ReceiveSupervisory(s, frame).status in {Ok, if s.phase == Connected then InvalidControlField else UnsupportedFrame}
  {
  }

  lemma CommandRefused(s: Session, frame: Frame)
    requires !Takes(s, ReceiveFrame(frame)) && Addressed(s.options, frame) && frame.control.raw % 4 == 3
    ensures Receive(s, frame).status ==
      if Refuses(s, ReceiveFrame(frame)) then ParseField(frame.information).status else UnsupportedFrame
  {
    UnnumberedBytes(frame.control);
    BlockExact(frame.information);
    assert Receive(s, frame) == ReceiveUnnumbered(s, frame);
  }

  // ----- The start, and what follows for every run

  /** A new session: disconnected, nothing counted, nothing owed, and able to do what it was told. */
  lemma StartFields(o: Options)
    ensures var s := Start(o);
      && s.phase == Disconnected && s.vs == 0 && s.vr == 0 && s.va == 0
      && !s.connectPending && !s.disconnectPending && !s.dmPending && s.userInformation == []
      && s.pending == PendingNegotiation(false, Params(128, 128, 1, 1))
      && s.options == o.(capability := s.negotiated) && s.window == s.negotiated.windowTransmit
      && s.negotiated.lengthTransmit == (if o.capability.lengthTransmit == 0 then 128 else o.capability.lengthTransmit)
      && s.negotiated.lengthReceive == (if o.capability.lengthReceive == 0 then 128 else o.capability.lengthReceive)
      && s.negotiated.windowTransmit == (if o.capability.windowTransmit == 0 then 1 else o.capability.windowTransmit)
      && s.negotiated.windowReceive == (if o.capability.windowReceive == 0 then 1 else o.capability.windowReceive)
  {
  }

  /** The window in force is always the negotiated one. */
  lemma {:induction false} RunWindow(s: Session, calls: seq<Call>)
    requires s.window == s.negotiated.windowTransmit
    ensures Run(s, calls).window == Run(s, calls).negotiated.windowTransmit
    decreases |calls|
  {
    if calls != [] {
      CallMoves(s, calls[0]);
      RunWindow(Apply(s, calls[0]).session, calls[1..]);
    }
  }
}
