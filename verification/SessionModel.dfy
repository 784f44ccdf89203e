/** The session state machine (src/hdlc/hdlc_session.cpp), first as functions on session values. */
module SessionModel {
  import opened Types
  import opened Bits
  import opened Addressing
  import opened ControlField
  import opened Codec
  import opened Negotiation

  datatype Role = Client | Server

  datatype Phase = Disconnected | AwaitingConnection | Connected | AwaitingDisconnect

  datatype Options = Options(
    role: Role,
    clientAddress: HdlcAddress,
    serverAddress: HdlcAddress,
    limits: Limits,
    capability: Capability)

  datatype PendingNegotiation = PendingNegotiation(active: bool, params: Params)

  /** A three-bit counter. */
  type Count8 = x: int | 0 <= x < 8

  datatype Session = Session(
    options: Options,
    phase: Phase,
    vs: Count8,
    vr: Count8,
    va: Count8,
    connectPending: bool,
    disconnectPending: bool,
    dmPending: bool,
    pending: PendingNegotiation,
    negotiated: Capability,
    window: Byte,
    userInformation: seq<Byte>)

  /** The session after a call, its status, and the bytes built, if any. */
  datatype Reply = Reply(session: Session, status: Status, output: seq<Byte>)

  function Start(o: Options): Session {
    var capability := Normalise(o.capability);
    Session(o.(capability := capability), Disconnected, 0, 0, 0, false, false, false,
            PendingNegotiation(false, DefaultParams()), capability, capability.windowTransmit, [])
  }

  function NextSequence(n: Count8): Count8 {
    (n + 1) % 8
  }

  function Local(o: Options): HdlcAddress {
    if o.role == Client then o.clientAddress else o.serverAddress
  }

  function Remote(o: Options): HdlcAddress {
    if o.role == Client then o.serverAddress else o.clientAddress
  }

  /** Outstanding frames modulo 8 are below the window. */
  predicate CanSend(s: Session) {
    (s.vs - s.va) % 8 < s.window
  }

  /** N(R) lies in the window from V(A) to V(S), modulo 8. */
  predicate AcceptableNr(s: Session, nr: Count8) {
    (nr - s.va) % 8 <= (s.vs - s.va) % 8
  }

  // ----- Control bytes

  const SNRM: HdlcControl := Control(0x93)
  const UA: HdlcControl := Control(0x73)
  const DISC: HdlcControl := Control(0x53)
  const DM: HdlcControl := Control(0x1f)

  function InformationControl(ns: Count8, nr: Count8, pollFinal: bool): HdlcControl {
    Control(2 * ns + (if pollFinal then 0x10 else 0) + 0x20 * nr)
  }

  function ReceiveReadyControl(nr: Count8, pollFinal: bool): HdlcControl {
    Control(1 + (if pollFinal then 0x10 else 0) + 0x20 * nr)
  }

  /** The control bytes say what they were made from. */
  lemma InformationFields(ns: Count8, nr: Count8, pollFinal: bool)
    ensures var c := InformationControl(ns, nr, pollFinal);
      c.Kind() == Information && c.SendSequence() == ns && c.ReceiveSequence() == nr && c.PollFinal() == pollFinal
  {
    var raw, p := InformationControl(ns, nr, pollFinal).raw, if pollFinal then 1 else 0;
    assert raw / 2 == ns + 8 * (p + 2 * nr);
    assert raw / 0x10 == p + 2 * nr;
    assert raw / 0x20 == nr;
  }

  lemma ReceiveReadyFields(nr: Count8, pollFinal: bool)
    ensures var c := ReceiveReadyControl(nr, pollFinal);
      c.Kind() == Supervisory && c.ReceiveSequence() == nr && c.PollFinal() == pollFinal
  {
  }

  lemma UnnumberedFields()
    ensures SNRM.UnnumberedCommand() == Success(Snrm) && UA.UnnumberedCommand() == Success(Ua)
    ensures DISC.UnnumberedCommand() == Success(Disc) && DM.UnnumberedCommand() == Success(Dm)
    ensures SNRM.PollFinal() && UA.PollFinal() && DISC.PollFinal() && DM.PollFinal()
  {
  }

  // ----- Building frames

  function FrameTo(o: Options, control: HdlcControl, information: seq<Byte>): Frame {
    Frame(false, Remote(o), Local(o), control, information)
  }

  function BuildFrame(o: Options, control: HdlcControl, information: seq<Byte>): Result<seq<Byte>> {
    EncodeFrame(FrameTo(o, control, information), o.limits)
  }

  function Finish(failed: Session, built: Result<seq<Byte>>, done: Session): Reply {
    if built.Failure? then Reply(failed, built.status, []) else Reply(done, Ok, built.value)
  }

  function Cleared(s: Session): Session {
    s.(vs := 0, vr := 0, va := 0)
  }

  function ConnectInformation(o: Options, includeNegotiation: bool, user: seq<Byte>): seq<Byte> {
    (if includeNegotiation then EncodeBlock(Proposal(o.capability)) else []) + user
  }

  function BuildConnectRequest(s: Session, includeNegotiation: bool, user: seq<Byte>): Reply {
    if s.options.role != Client then Reply(s, UnsupportedFeature, [])
    else if s.phase != Disconnected then Reply(s, UnsupportedFrame, [])
    else Finish(s, BuildFrame(s.options, SNRM, ConnectInformation(s.options, includeNegotiation, user)),
                Cleared(s).(phase := AwaitingConnection))
  }

  /** The negotiated limits of a station that transmits up to the first pair and receives up to the
      second. Windows are stored in eight bits. */
  function Limited(s: Session, lengthTransmit: nat, windowTransmit: nat, lengthReceive: nat, windowReceive: nat): Session {
    s.(negotiated := Capability(lengthTransmit, lengthReceive, windowTransmit % 0x100, windowReceive % 0x100),
       options := s.options.(limits := s.options.limits.(maximumInformationFieldSize := lengthTransmit)),
       window := windowTransmit % 0x100)
  }

  /** The server's side of the pending negotiation. */
  function Answer(s: Session): Params {
    NegotiateParams(s.pending.params, s.options.capability)
  }

  function ApplyAnswer(s: Session): Session {
    if !s.pending.active then s
    else var n := Answer(s); Limited(s, n.maxInfoRx, n.windowRx, n.maxInfoTx, n.windowTx)
  }

  function AnswerInformation(s: Session): seq<Byte> {
    if s.pending.active then EncodeBlock(Answer(s)) else []
  }

  function BuildConnectResponse(s: Session): Reply {
    if s.options.role != Server then Reply(s, UnsupportedFeature, [])
    else if !s.connectPending then Reply(s, UnsupportedFrame, [])
    else FinishConnect(ApplyAnswer(s), BuildFrame(ApplyAnswer(s).options, UA, AnswerInformation(s)))
  }

  /** The limits stay as negotiated even if the frame was not built. */
  function FinishConnect(t: Session, built: Result<seq<Byte>>): Reply {
    Finish(t, built, Cleared(t).(phase := Connected, connectPending := false, pending := t.pending.(active := false)))
  }

  function BuildDisconnectRequest(s: Session, user: seq<Byte>): Reply {
    if s.phase != Connected then Reply(s, UnsupportedFrame, [])
    else Finish(s, BuildFrame(s.options, DISC, user), s.(phase := AwaitingDisconnect))
  }

  function BuildDisconnectResponse(s: Session): Reply {
    if !s.disconnectPending then Reply(s, UnsupportedFrame, [])
    else Finish(s, BuildFrame(s.options, UA, []), Cleared(s).(phase := Disconnected, disconnectPending := false))
  }

  function BuildDmResponse(s: Session): Reply {
    if !s.dmPending then Reply(s, UnsupportedFrame, [])
    else Finish(s, BuildFrame(s.options, DM, []), s.(dmPending := false))
  }

  function BuildInformation(s: Session, information: seq<Byte>, pollFinal: bool): Reply {
    if s.phase != Connected || !CanSend(s) then Reply(s, UnsupportedFrame, [])
    else Finish(s, BuildFrame(s.options, InformationControl(s.vs, s.vr, pollFinal), information),
                s.(vs := NextSequence(s.vs)))
  }

  function BuildReceiveReady(s: Session, pollFinal: bool): Reply {
    if s.phase != Connected then Reply(s, UnsupportedFrame, [])
    else Finish(s, BuildFrame(s.options, ReceiveReadyControl(s.vr, pollFinal), []), s)
  }

  // ----- Receiving frames

  function Answered(s: Session, status: Status): Reply {
    Reply(s, status, [])
  }

  function ReceiveInformation(s: Session, frame: Frame): Reply {
    if s.phase != Connected then Answered(s, UnsupportedFrame)
    else if frame.control.SendSequence() != s.vr then Answered(s, InvalidControlField)
    else if !AcceptableNr(s, frame.control.ReceiveSequence()) then Answered(s, InvalidControlField)
    else Answered(s.(va := frame.control.ReceiveSequence(), vr := NextSequence(s.vr)), Ok)
  }

  function ReceiveSupervisory(s: Session, frame: Frame): Reply {
    if s.phase != Connected then Answered(s, UnsupportedFrame)
    else if !AcceptableNr(s, frame.control.ReceiveSequence()) then Answered(s, InvalidControlField)
    else Answered(s.(va := frame.control.ReceiveSequence()), Ok)
  }

  function ReceiveSnrm(s: Session, information: seq<Byte>): Reply {
    if s.options.role != Server || s.phase != Disconnected then Answered(s, UnsupportedFrame)
    else
      var t := s.(userInformation := [], pending := s.pending.(active := false));
      if information == [] then Answered(Cleared(t).(connectPending := true), Ok)
      else SnrmParsed(t, ParseField(information), information)
  }

  /** The request once its Information field was parsed: what is no block is user information. */
  function SnrmParsed(s: Session, parsed: Result<Negotiated>, information: seq<Byte>): Reply
    requires parsed.Success? ==> parsed.value.consumed <= |information|
  {
    match parsed
    case Failure(status) => Answered(s.(dmPending := true), status)
    case Success(n) =>
      var u := if n.consumed > 0 then s.(pending := PendingNegotiation(true, n.params)) else s;
      Answered(Cleared(u).(connectPending := true, userInformation := information[n.consumed..]), Ok)
  }

  /** The client adopts the limits that the UA confirms, if it carries any. */
  function AdoptAnswer(s: Session, information: seq<Byte>): Session {
    match ParseField(information)
    case Failure(_) => s
    case Success(n) =>
      if n.consumed == 0 then s
      else Limited(s, n.params.maxInfoTx, n.params.windowTx, n.params.maxInfoRx, n.params.windowRx)
  }

  function ReceiveUa(s: Session, information: seq<Byte>): Reply {
    if s.phase == AwaitingConnection then Answered(Cleared(AdoptAnswer(s, information)).(phase := Connected), Ok)
    else if s.phase == AwaitingDisconnect then Answered(Cleared(s).(phase := Disconnected), Ok)
    else Answered(s, UnsupportedFrame)
  }

  function ReceiveUnnumbered(s: Session, frame: Frame): Reply {
    match frame.control.UnnumberedCommand()
    case Failure(status) => Answered(s, status)
    case Success(Snrm) => ReceiveSnrm(s, frame.information)
    case Success(Ua) => ReceiveUa(s, frame.information)
    case Success(Disc) =>
      if s.phase != Connected then Answered(s, UnsupportedFrame)
      else Answered(s.(userInformation := frame.information, disconnectPending := true), Ok)
    case Success(Dm) => Answered(Cleared(s).(phase := Disconnected), Ok)
    case Success(Frmr) => Answered(s, UnsupportedFrame)
    case Success(Ui) => Answered(s, UnsupportedFrame)
  }

  function Receive(s: Session, frame: Frame): Reply {
    if frame.destination != Local(s.options) || frame.source != Remote(s.options) then Answered(s, InvalidAddress)
    else
      match frame.control.Kind()
      case Information => ReceiveInformation(s, frame)
      case Supervisory => ReceiveSupervisory(s, frame)
      case Unnumbered => ReceiveUnnumbered(s, frame)
  }

  // ----- All calls

  datatype Call =
    | ConnectRequest
    | ConnectRequestWith(user: seq<Byte>)
    | ConnectResponse
    | DisconnectRequest(user: seq<Byte>)
    | DisconnectResponse
    | DmResponse
    | SendInformation(information: seq<Byte>, pollFinal: bool)
    | SendReceiveReady(pollFinal: bool)
    | ReceiveFrame(frame: Frame)

  function Apply(s: Session, c: Call): Reply {
    match c
    case ConnectRequest => BuildConnectRequest(s, s.options.capability != DefaultCapability(), [])
    case ConnectRequestWith(user) => BuildConnectRequest(s, true, user)
    case ConnectResponse => BuildConnectResponse(s)
    case DisconnectRequest(user) => BuildDisconnectRequest(s, user)
    case DisconnectResponse => BuildDisconnectResponse(s)
    case DmResponse => BuildDmResponse(s)
    case SendInformation(information, pollFinal) => BuildInformation(s, information, pollFinal)
    case SendReceiveReady(pollFinal) => BuildReceiveReady(s, pollFinal)
    case ReceiveFrame(frame) => Receive(s, frame)
  }

  function Run(s: Session, calls: seq<Call>): Session
    decreases |calls|
  {
    if calls == [] then s else Run(Apply(s, calls[0]).session, calls[1..])
  }

  predicate FromPeer(s: Session, frame: Frame) {
    frame.destination == Local(s.options) && frame.source == Remote(s.options)
  }

  /** The call receives this unnumbered command from the peer. */
  predicate Gets(s: Session, c: Call, command: UnnumberedKind) {
    c.ReceiveFrame? && FromPeer(s, c.frame) && c.frame.control.UnnumberedCommand() == Success(command)
  }

  /** What is sent and accepted is limited as before. */
  predicate SameLimits(s: Session, t: Session) {
    t.options == s.options && t.negotiated == s.negotiated && t.window == s.window
  }

  /** What holds between calls. */
  predicate Consistent(s: Session) {
    && (s.connectPending ==> s.options.role == Server && s.phase == Disconnected)
    && (s.pending.active ==> s.connectPending)
    && (s.phase == AwaitingConnection ==> s.options.role == Client)
    && (s.phase == Disconnected || s.phase == AwaitingConnection ==> s.vs == 0 && s.vr == 0 && s.va == 0)
    && (s.dmPending ==> s.options.role == Server)
    && s.options.capability == Normalise(s.options.capability)
  }

  /** Role, addresses, capability and frame limit are fixed for the life of a session. */
  predicate SameEndpoint(s: Session, t: Session) {
    && t.options.role == s.options.role && t.options.capability == s.options.capability
    && t.options.clientAddress == s.options.clientAddress && t.options.serverAddress == s.options.serverAddress
    && t.options.limits.maximumFrameSize == s.options.limits.maximumFrameSize
  }

  predicate SameProgress(s: Session, t: Session) {
    t.phase == s.phase && t.vs == s.vs && t.vr == s.vr && t.va == s.va
  }

  /** The frame length limit in force is the negotiated transmit length. */
  predicate Tied(s: Session) {
    s.options.limits.maximumInformationFieldSize == s.negotiated.lengthTransmit
  }

  predicate Keeps(s: Session, r: Reply) {
    && Consistent(r.session)
    && SameEndpoint(s, r.session)
    && (r.status != Ok ==> SameProgress(s, r.session) && r.output == [])
    && (Tied(s) ==> Tied(r.session))
  }

  lemma ConnectRequestKeeps(s: Session, includeNegotiation: bool, user: seq<Byte>)
    requires Consistent(s)
    ensures Keeps(s, BuildConnectRequest(s, includeNegotiation, user))
  {
  }

  lemma ConnectResponseKeeps(s: Session)
    requires Consistent(s)
    ensures Keeps(s, BuildConnectResponse(s))
  {
  }

  lemma DisconnectRequestKeeps(s: Session, user: seq<Byte>)
    requires Consistent(s)
    ensures Keeps(s, BuildDisconnectRequest(s, user))
  {
  }

  lemma DisconnectResponseKeeps(s: Session)
    requires Consistent(s)
    ensures Keeps(s, BuildDisconnectResponse(s))
  {
  }

  lemma DmResponseKeeps(s: Session)
    requires Consistent(s)
    ensures Keeps(s, BuildDmResponse(s))
  {
  }

  lemma InformationKeeps(s: Session, information: seq<Byte>, pollFinal: bool)
    requires Consistent(s)
    ensures Keeps(s, BuildInformation(s, information, pollFinal))
  {
  }

  lemma ReceiveReadyKeeps(s: Session, pollFinal: bool)
    requires Consistent(s)
    ensures Keeps(s, BuildReceiveReady(s, pollFinal))
  {
  }

  lemma SnrmKeeps(s: Session, information: seq<Byte>)
    requires Consistent(s)
    ensures Keeps(s, ReceiveSnrm(s, information))
  {
    if s.options.role == Server && s.phase == Disconnected && information != [] {
      SnrmParsedKeeps(s.(userInformation := [], pending := s.pending.(active := false)), ParseField(information), information);
    }
  }

  lemma SnrmParsedKeeps(s: Session, parsed: Result<Negotiated>, information: seq<Byte>)
    requires Consistent(s) && s.options.role == Server && s.phase == Disconnected
    requires if parsed.Success? then parsed.value.consumed <= |information| else parsed.status != Ok
    ensures Keeps(s, SnrmParsed(s, parsed, information))
  {
  }

  lemma UaKeeps(s: Session, information: seq<Byte>)
    requires Consistent(s)
    ensures Keeps(s, ReceiveUa(s, information))
  {
  }

  lemma UnnumberedKeeps(s: Session, frame: Frame)
    requires Consistent(s)
    ensures Keeps(s, ReceiveUnnumbered(s, frame))
  {
    match frame.control.UnnumberedCommand() {
      case Success(Snrm) => SnrmKeeps(s, frame.information);
      case Success(Ua) => UaKeeps(s, frame.information);
      case _ =>
    }
  }

  lemma ReceiveKeeps(s: Session, frame: Frame)
    requires Consistent(s)
    ensures Keeps(s, Receive(s, frame))
  {
    if frame.control.Kind() == Unnumbered {
      UnnumberedKeeps(s, frame);
    }
  }

  /** Every call keeps the session consistent, and a call that does not return Ok moves neither the
      state nor a counter. */
  lemma StepKeeps(s: Session, c: Call)
    requires Consistent(s)
    ensures Keeps(s, Apply(s, c))
  {
    match c
    case ConnectRequest => ConnectRequestKeeps(s, s.options.capability != DefaultCapability(), []);
    case ConnectRequestWith(user) => ConnectRequestKeeps(s, true, user);
    case ConnectResponse => ConnectResponseKeeps(s);
    case DisconnectRequest(user) => DisconnectRequestKeeps(s, user);
    case DisconnectResponse => DisconnectResponseKeeps(s);
    case DmResponse => DmResponseKeeps(s);
    case SendInformation(information, pollFinal) => InformationKeeps(s, information, pollFinal);
    case SendReceiveReady(pollFinal) => ReceiveReadyKeeps(s, pollFinal);
    case ReceiveFrame(frame) => ReceiveKeeps(s, frame);
  }

  /** The same over every sequence of calls on a session as constructed. */
  lemma {:induction false} RunKeeps(s: Session, calls: seq<Call>)
    requires Consistent(s)
    ensures Consistent(Run(s, calls)) && SameEndpoint(s, Run(s, calls)) && (Tied(s) ==> Tied(Run(s, calls)))
    decreases |calls|
  {
    if calls != [] {
      StepKeeps(s, calls[0]);
      RunKeeps(Apply(s, calls[0]).session, calls[1..]);
    }
  }

  lemma StartConsistent(o: Options)
    ensures Consistent(Start(o)) && Start(o).options.capability == Normalise(o.capability)
  {
  }
}
