/** How much a connection lets an I-frame carry, and which calls change that. */
module SessionLimits {
  import opened Types
  import opened Bits
  import opened ControlField
  import opened Codec
  import opened Negotiation
  import opened SessionModel
  import opened SessionNegotiation

  // ----- How much an I-frame may carry

  /** The most Information that the length field and the frame limit leave room for. */
  function FrameRoom(o: Options): nat {
    var overhead, most := 9 + o.clientAddress.size + o.serverAddress.size, Min(EffectiveMaximumFrameSize(o.limits), 2049);
    if most < overhead then 0 else most - overhead
  }

  /** The most Information that this station puts into a frame. */
  function Room(o: Options): nat {
    if o.limits.maximumInformationFieldSize == 0 then FrameRoom(o)
    else Min(FrameRoom(o), o.limits.maximumInformationFieldSize)
  }

  /** A frame without Information fits: its addresses and seven other bytes. */
  predicate AdmitsBare(o: Options) {
    7 + o.clientAddress.size + o.serverAddress.size <= EffectiveMaximumFrameSize(o.limits)
  }

  lemma RoomExact(o: Options, control: HdlcControl, information: seq<Byte>)
    requires AdmitsBare(o)
    ensures BuildFrame(o, control, information).Success? <==> |information| <= Room(o)
  {
    BuildExact(o, control, information);
  }

  /** No I-frame carries more than the negotiated transmit length. */
  ghost predicate Capped(t: Session) {
    forall information: seq<Byte>, pollFinal :: BuildInformation(t, information, pollFinal).status == Ok ==>
                                                  |information| <= t.negotiated.lengthTransmit
  }

  lemma SendsUpToRoom(t: Session, information: seq<Byte>, pollFinal: bool)
    requires t.phase == Connected && CanSend(t) && AdmitsBare(t.options)
    ensures BuildInformation(t, information, pollFinal).status == Ok <==> |information| <= Room(t.options)
  {
    RoomExact(t.options, InformationControl(t.vs, t.vr, pollFinal), information);
  }

  /** A session that may send keeps to the length that it reports if and only if the room in its
      frames does. */
  lemma CapExact(t: Session)
    requires t.phase == Connected && CanSend(t) && AdmitsBare(t.options)
    ensures Capped(t) <==> Room(t.options) <= t.negotiated.lengthTransmit
  {
    var most: seq<Byte> := seq(Room(t.options), i => 0);
    SendsUpToRoom(t, most, false);
    forall information: seq<Byte>, pollFinal | BuildInformation(t, information, pollFinal).status == Ok
      ensures |information| <= Room(t.options)
    {
      SendsUpToRoom(t, information, pollFinal);
    }
  }

  // ----- Whether a block was applied

  /** The call applies the limits of a parameter block: the server by answering, the client by
      receiving the answer. */
  predicate AppliesBlock(s: Session, c: Call) {
    || (c.ConnectResponse? && s.options.role == Server && s.connectPending && s.pending.active)
    || (Gets(s, c, Ua) && s.phase == AwaitingConnection
        && StartsBlock(c.frame.information) && ParseField(c.frame.information).Success?)
  }

  lemma AnswerLimits(s: Session)
    ensures var t := BuildConnectResponse(s).session;
      if AppliesBlock(s, ConnectResponse) then Tied(t) else SameLimits(s, t)
  {
  }

  lemma UaLimits(s: Session, information: seq<Byte>)
    ensures var t, parsed := ReceiveUa(s, information).session, ParseField(information);
      if s.phase == AwaitingConnection && StartsBlock(information) && parsed.Success? then Tied(t) else SameLimits(s, t)
  {
    BlockExact(information);
  }

  lemma SnrmLimits(s: Session, information: seq<Byte>)
    ensures SameLimits(s, ReceiveSnrm(s, information).session)
  {
  }

  lemma UnnumberedLimits(s: Session, frame: Frame)
    requires FromPeer(s, frame) && frame.control.Kind() == Unnumbered
    ensures var t := ReceiveUnnumbered(s, frame).session;
      if AppliesBlock(s, ReceiveFrame(frame)) then Tied(t) else SameLimits(s, t)
  {
    UaLimits(s, frame.information);
    SnrmLimits(s, frame.information);
  }

  lemma HeardLimits(s: Session, frame: Frame)
    ensures var t := Receive(s, frame).session;
      if AppliesBlock(s, ReceiveFrame(frame)) then Tied(t) else SameLimits(s, t)
  {
    if FromPeer(s, frame) && frame.control.Kind() == Unnumbered {
      UnnumberedLimits(s, frame);
    }
  }

  /** A call that applies a block ties the limit of the frames to the negotiated length; every other
      call leaves all limits as they are. */
  lemma StepLimits(s: Session, c: Call)
    ensures var t := Apply(s, c).session;
      if AppliesBlock(s, c) then Tied(t) else SameLimits(s, t)
  {
    match c
    case ConnectResponse => AnswerLimits(s);
    case ReceiveFrame(frame) => HeardLimits(s, frame);
    case _ => BuildLimits(s, c);
  }

  lemma RequestLimits(s: Session, includeNegotiation: bool, user: seq<Byte>)
    ensures SameLimits(s, BuildConnectRequest(s, includeNegotiation, user).session)
  {
  }

  lemma PartingLimits(s: Session, user: seq<Byte>)
    ensures SameLimits(s, BuildDisconnectRequest(s, user).session)
    ensures SameLimits(s, BuildDisconnectResponse(s).session) && SameLimits(s, BuildDmResponse(s).session)
  {
  }

  lemma SendingLimits(s: Session, information: seq<Byte>, pollFinal: bool)
    ensures SameLimits(s, BuildInformation(s, information, pollFinal).session)
  {
  }

  lemma ReadyLimits(s: Session, pollFinal: bool)
    ensures SameLimits(s, BuildReceiveReady(s, pollFinal).session)
  {
  }

  lemma BuildLimits(s: Session, c: Call)
    requires !c.ConnectResponse? && !c.ReceiveFrame?
    ensures SameLimits(s, Apply(s, c).session)
  {
    match c
    case ConnectRequest => RequestLimits(s, s.options.capability != DefaultCapability(), []);
    case ConnectRequestWith(user) => RequestLimits(s, true, user);
    case DisconnectRequest(user) => PartingLimits(s, user);
    case DisconnectResponse => PartingLimits(s, []);
    case DmResponse => PartingLimits(s, []);
    case SendInformation(information, pollFinal) => SendingLimits(s, information, pollFinal);
    case SendReceiveReady(pollFinal) => ReadyLimits(s, pollFinal);
  }

  predicate AppliedDuring(s: Session, calls: seq<Call>)
    decreases |calls|
  {
    calls != [] && (AppliesBlock(s, calls[0]) || AppliedDuring(Apply(s, calls[0]).session, calls[1..]))
  }

  lemma {:induction false} RunLimits(s: Session, calls: seq<Call>)
    requires Consistent(s)
    ensures AppliedDuring(s, calls) ==> Tied(Run(s, calls))
    ensures !AppliedDuring(s, calls) ==> SameLimits(s, Run(s, calls))
    decreases |calls|
  {
    if calls != [] {
      var t := Apply(s, calls[0]).session;
      StepLimits(s, calls[0]);
      StepKeeps(s, calls[0]);
      RunLimits(t, calls[1..]);
      if AppliesBlock(s, calls[0]) {
        RunKeeps(t, calls[1..]);
      }
    }
  }

  /** Once some call of a run has applied a parameter block, every later I-frame is within the
      negotiated length then in force if and only if that length is not zero (or no frame has room
      for anything). */
  lemma CappedForever(o: Options, calls: seq<Call>)
    requires AppliedDuring(Start(o), calls)
    requires var t := Run(Start(o), calls); t.phase == Connected && CanSend(t) && AdmitsBare(t.options)
    ensures var t := Run(Start(o), calls);
      Capped(t) <==> t.negotiated.lengthTransmit != 0 || FrameRoom(t.options) == 0
  {
    StartConsistent(o);
    RunLimits(Start(o), calls);
    CapExact(Run(Start(o), calls));
  }

  /** As long as no call has applied one, I-frames are limited by the configuration alone, and within
      the length that is reported if and only if the configuration is. */
  lemma UncappedBefore(o: Options, calls: seq<Call>)
    requires !AppliedDuring(Start(o), calls)
    requires var t := Run(Start(o), calls); t.phase == Connected && CanSend(t) && AdmitsBare(t.options)
    ensures var t := Run(Start(o), calls);
      && t.negotiated == Normalise(o.capability) && t.options.limits == o.limits
      && (Capped(t) <==> Room(o) <= Normalise(o.capability).lengthTransmit)
  {
    StartConsistent(o);
    RunLimits(Start(o), calls);
    CapExact(Run(Start(o), calls));
    assert Run(Start(o), calls).options == Start(o).options;
    assert Room(Start(o).options) == Room(o);
  }

  lemma RunTwo(s: Session, first: Call, second: Call, t: Session, u: Session)
    requires t == Apply(s, first).session && u == Apply(t, second).session
    ensures Run(s, [first, second]) == u
  {
    assert [first, second][1..] == [second];
    RunOne(t, second);
  }

  lemma HeardApplied(s: Session, frame: Frame, t: Session)
    requires Receive(s, frame).session == t
    ensures t == Apply(s, ReceiveFrame(frame)).session
  {
  }

  lemma ConnectApplied(s: Session, asked: Session)
    requires BuildConnectRequest(s, s.options.capability != DefaultCapability(), []).session == asked
    ensures asked == Apply(s, ConnectRequest).session
  {
  }

  /** A request without a block and a frame that arrives after it, as a run. */
  lemma ConnectedRun(o: Options, ua: Frame, asked: Session, t: Session)
    requires o.capability == DefaultCapability()
    requires BuildConnectRequest(Start(o), false, []).session == asked && Receive(asked, ua).session == t
    ensures Run(Start(o), [ConnectRequest, ReceiveFrame(ua)]) == t
  {
    ConnectApplied(Start(o), asked);
    HeardApplied(asked, ua, t);
    RunTwo(Start(o), ConnectRequest, ReceiveFrame(ua), asked, t);
  }

  /** It happens with the defaults: a client connects without a parameter block and sends 129 bytes
      although it reports a transmit length of 128. */
  lemma Uncapped(o: Options, ua: Frame, information: seq<Byte>)
    requires o.role == Client && o.limits == DefaultLimits() && o.capability == DefaultCapability()
    requires ua.destination == o.clientAddress && ua.source == o.serverAddress && ua.control == UA && ua.information == []
    requires |information| == 129
    ensures var t := Run(Start(o), [ConnectRequest, ReceiveFrame(ua)]);
      t.negotiated.lengthTransmit == 128 && BuildInformation(t, information, false).status == Ok
  {
    ConnectsBare(o);
    ConfirmedBare(Start(o).(phase := AwaitingConnection), ua);
    ConnectedRun(o, ua, Start(o).(phase := AwaitingConnection), Start(o).(phase := Connected));
    SendsOver(Start(o).(phase := Connected), information);
  }

  lemma SendsOver(t: Session, information: seq<Byte>)
    requires t.phase == Connected && CanSend(t) && AdmitsBare(t.options) && Room(t.options) >= |information|
    ensures BuildInformation(t, information, false).status == Ok
  {
    SendsUpToRoom(t, information, false);
  }

  lemma ConnectsBare(o: Options)
    requires o.role == Client && o.limits == DefaultLimits() && o.capability == DefaultCapability()
    ensures BuildConnectRequest(Start(o), false, []).session == Start(o).(phase := AwaitingConnection)
    ensures Start(o).options == o && AdmitsBare(o) && Room(o) >= 129
    ensures CanSend(Start(o)) && Start(o).negotiated.lengthTransmit == 128
  {
    RoomExact(o, SNRM, []);
  }

  lemma ConfirmedBare(s: Session, ua: Frame)
    requires s.phase == AwaitingConnection && FromPeer(s, ua) && ua.control == UA && ua.information == []
    requires s.vs == 0 && s.vr == 0 && s.va == 0
    ensures Receive(s, ua).session == s.(phase := Connected)
  {
    UnnumberedFields();
    assert Receive(s, ua) == ReceiveUa(s, []);
  }

  // ----- Connections without a block

  /** An SNRM whose Information does not start with a block is accepted: all of it is user information, no
      negotiation is pending, and the limits of an earlier connection stay in place, before and after
      it is answered. */
  lemma NoBlockNoChange(s: Session, information: seq<Byte>)
    requires s.options.role == Server && s.phase == Disconnected
    requires |information| < 3 || information[0] != 0x81 || information[1] != 0x80
    ensures var r := ReceiveSnrm(s, information);
      && r.status == Ok && r.session.userInformation == information
      && r.session.connectPending && !r.session.pending.active
      && SameLimits(s, r.session) && SameLimits(s, BuildConnectResponse(r.session).session)
  {
    BlockExact(information);
    var asked := ReceiveSnrm(s, information).session;
    AnswerLimits(asked);
    assert !asked.pending.active;
    assert information[0..] == information;
  }

  /** So does a UA whose Information does not start with a block, or with one that cannot be read, at the
      client. */
  lemma UnreadNoChange(c: Session, information: seq<Byte>)
    requires c.phase == AwaitingConnection
    requires |information| < 3 || information[0] != 0x81 || information[1] != 0x80 || ParseField(information).Failure?
    ensures var r := ReceiveUa(c, information);
      r.status == Ok && r.session.phase == Connected && SameLimits(c, r.session)
  {
    UaLimits(c, information);
  }

  // ----- Two runs that show it

  /** A request with these parameters arrives at a disconnected server. */
  predicate Requests(s: Session, snrm: Frame, p: Params) {
    && s.options.role == Server && s.phase == Disconnected
    && FromPeer(s, snrm) && snrm.control == SNRM && snrm.information == EncodeBlock(p)
  }

  lemma BlockTaken(s: Session, snrm: Frame, p: Params)
    requires Requests(s, snrm, p) && Carried(p) == p
    ensures var t := Receive(s, snrm).session;
      t.options == s.options && t.connectPending && t.pending == PendingNegotiation(true, p)
  {
    UnnumberedFields();
    BlockRoundTrip(p, []);
    assert EncodeBlock(p) + [] == EncodeBlock(p);
    assert Receive(s, snrm) == ReceiveSnrm(s, snrm.information);
  }

  lemma AnswerTaken(s: Session)
    requires MayAnswer(s)
    ensures var t := BuildConnectResponse(s).session;
      && t.phase == Connected && t.vs == 0 && t.vr == 0 && t.va == 0 && t.options == ApplyAnswer(s).options
      && t.negotiated == ApplyAnswer(s).negotiated && t.window == ApplyAnswer(s).window
  {
    AnswerBuilt(s);
  }

  /** Connected with the counters at zero, under these options and with this answer. */
  predicate Fresh(t: Session, o: Options, a: Params) {
    && t.phase == Connected && t.vs == 0 && t.vr == 0 && t.va == 0
    && t.options == o.(limits := o.limits.(maximumInformationFieldSize := a.maxInfoRx))
    && ServerHolds(t.negotiated, a) && t.window == t.negotiated.windowTransmit
  }

  lemma PendingAnswered(asked: Session, p: Params)
    requires asked.options.role == Server && asked.connectPending && asked.pending == PendingNegotiation(true, p)
    requires Answerable(asked.options, NegotiateParams(p, asked.options.capability))
    ensures Fresh(BuildConnectResponse(asked).session, asked.options, NegotiateParams(p, asked.options.capability))
  {
    AnswerTaken(asked);
    AnswerApplied(asked);
  }

  /** A request and the answer to it, as a run. */
  lemma RunAnswered(s: Session, snrm: Frame, asked: Session, t: Session)
    requires Receive(s, snrm).session == asked && BuildConnectResponse(asked).session == t
    ensures Run(s, [ReceiveFrame(snrm), ConnectResponse]) == t
  {
    RunTwo(s, ReceiveFrame(snrm), ConnectResponse, asked, t);
  }

  /** The server after a request with these parameters and its answer. */
  lemma BlockAnswered(s: Session, snrm: Frame, p: Params)
    requires Requests(s, snrm, p) && Carried(p) == p
    requires Answerable(s.options, NegotiateParams(p, s.options.capability))
    ensures Fresh(Run(s, [ReceiveFrame(snrm), ConnectResponse]), s.options, NegotiateParams(p, s.options.capability))
  {
    BlockTaken(s, snrm, p);
    var asked := Receive(s, snrm).session;
    PendingAnswered(asked, p);
    RunAnswered(s, snrm, asked, BuildConnectResponse(asked).session);
  }

  /** A negotiated length of zero lifts the limit, in a run from the start: the server reports that it
      transmits nothing and sends a byte. */
  lemma ZeroUncapped(o: Options, snrm: Frame)
    requires o.limits == DefaultLimits() && o.capability == DefaultCapability()
    requires Requests(Start(o), snrm, Params(128, 0, 1, 1))
    ensures var t := Run(Start(o), [ReceiveFrame(snrm), ConnectResponse]);
      t.negotiated.lengthTransmit == 0 && BuildInformation(t, [0], false).status == Ok
  {
    BlockAnswered(Start(o), snrm, Params(128, 0, 1, 1));
    SendsOver(Run(Start(o), [ReceiveFrame(snrm), ConnectResponse]), [0]);
  }

  /** The server is told to disconnect and answers. */
  lemma ClosedByPeer(s: Session, disc: Frame)
    requires s.phase == Connected && FromPeer(s, disc) && disc.control == DISC && Carries(s.options, 0)
    ensures var t := Run(s, [ReceiveFrame(disc), DisconnectResponse]);
      t.phase == Disconnected && SameLimits(s, t)
  {
    FarewellTaken(s, disc);
    var told := s.(userInformation := disc.information, disconnectPending := true);
    FarewellAnswered(told);
    RunClosed(s, disc, told, BuildDisconnectResponse(told).session);
  }

  /** A farewell and the answer to it, as a run. */
  lemma RunClosed(s: Session, disc: Frame, told: Session, t: Session)
    requires Receive(s, disc).session == told && BuildDisconnectResponse(told).session == t
    ensures Run(s, [ReceiveFrame(disc), DisconnectResponse]) == t
  {
    RunTwo(s, ReceiveFrame(disc), DisconnectResponse, told, t);
  }

  lemma FarewellTaken(s: Session, disc: Frame)
    requires s.phase == Connected && FromPeer(s, disc) && disc.control == DISC
    ensures Receive(s, disc) == Answered(s.(userInformation := disc.information, disconnectPending := true), Ok)
  {
    UnnumberedFields();
  }

  lemma FarewellAnswered(s: Session)
    requires s.disconnectPending && Carries(s.options, 0)
    ensures var t := BuildDisconnectResponse(s).session;
      t.phase == Disconnected && SameLimits(s, t)
  {
    BuildExact(s.options, UA, []);
  }

  /** A request without a block arrives and is answered. */
  lemma BareAnswered(s: Session, snrm: Frame)
    requires s.options.role == Server && s.phase == Disconnected && FromPeer(s, snrm)
    requires snrm.control == SNRM && snrm.information == [] && Carries(s.options, 0)
    ensures var t := Run(s, [ReceiveFrame(snrm), ConnectResponse]);
      t.phase == Connected && SameLimits(s, t)
  {
    BareTaken(s, snrm);
    var asked := Receive(s, snrm).session;
    AnswerTaken(asked);
    RunAnswered(s, snrm, asked, BuildConnectResponse(asked).session);
  }

  lemma BareTaken(s: Session, snrm: Frame)
    requires s.options.role == Server && s.phase == Disconnected && FromPeer(s, snrm)
    requires snrm.control == SNRM && snrm.information == []
    ensures var t := Receive(s, snrm).session;
      SameLimits(s, t) && t.connectPending && !t.pending.active
  {
    UnnumberedFields();
    assert Receive(s, snrm) == ReceiveSnrm(s, []);
  }

  /** Limits outlive their connection, in a run from the start: a server negotiates 200 bytes and a
      window of 3, is disconnected, accepts a request without a block, and still holds both. */
  lemma EarlierLimitsStay(o: Options, first: Frame, disc: Frame, second: Frame)
    requires o.limits == DefaultLimits() && o.capability == Capability(256, 256, 4, 4)
    requires Requests(Start(o), first, Params(200, 200, 3, 3))
    requires FromPeer(Start(o), disc) && disc.control == DISC
    requires FromPeer(Start(o), second) && second.control == SNRM && second.information == []
    ensures var up := Run(Start(o), [ReceiveFrame(first), ConnectResponse]);
      var down := Run(up, [ReceiveFrame(disc), DisconnectResponse]);
      var again := Run(down, [ReceiveFrame(second), ConnectResponse]);
      again.phase == Connected && again.negotiated == Capability(200, 200, 3, 3)
  {
    BlockAnswered(Start(o), first, Params(200, 200, 3, 3));
    StillHolds(Start(o), Run(Start(o), [ReceiveFrame(first), ConnectResponse]), disc, second);
  }

  lemma StillHolds(s: Session, up: Session, disc: Frame, second: Frame)
    requires s.options.role == Server && s.options.limits == DefaultLimits() && Fresh(up, s.options, Params(200, 200, 3, 3))
    requires FromPeer(s, disc) && disc.control == DISC
    requires FromPeer(s, second) && second.control == SNRM && second.information == []
    ensures var down := Run(up, [ReceiveFrame(disc), DisconnectResponse]);
      var again := Run(down, [ReceiveFrame(second), ConnectResponse]);
      again.phase == Connected && again.negotiated == Capability(200, 200, 3, 3)
  {
    ClosedByPeer(up, disc);
    BareAnswered(Run(up, [ReceiveFrame(disc), DisconnectResponse]), second);
  }
}
