/** What single calls contribute to a run of two linked sessions: what they build, accept and refuse. */
module LinkCalls {
  import opened Types
  import opened Bits
  import opened ControlField
  import opened Codec
  import opened Negotiation
  import opened SessionModel
  import opened Link

  predicate WindowRange(w: nat) {
    1 <= w <= 7
  }

  /** Windows that three-bit numbers can carry. The code does not check this. */
  predicate Bounded(s: Session) {
    && WindowRange(s.window)
    && WindowRange(s.options.capability.windowTransmit) && WindowRange(s.options.capability.windowReceive)
    && (s.pending.active ==> WindowRange(s.pending.params.windowTx) && WindowRange(s.pending.params.windowRx))
  }

  // ----- Building

  lemma ConnectRequestBuilt(s: Session, includeNegotiation: bool, user: seq<Byte>)
    ensures var r := BuildConnectRequest(s, includeNegotiation, user);
      var frame := FrameTo(s.options, SNRM, ConnectInformation(s.options, includeNegotiation, user));
      if r.status == Ok then
        s.phase == Disconnected && s.options.role == Client
        && r.session == Cleared(s).(phase := AwaitingConnection) && Printable(frame) && r.output == Wire(frame)
      else r.session == s
  {
  }

  lemma ApplyAnswerBounded(s: Session)
    requires Bounded(s) && Consistent(s)
    ensures var t := ApplyAnswer(s);
      Bounded(t) && SameEndpoint(s, t) && SameProgress(s, t)
      && t.connectPending == s.connectPending && t.disconnectPending == s.disconnectPending
  {
  }

  lemma FinishConnectFacts(t: Session, built: Result<seq<Byte>>)
    requires Bounded(t) && (built.Failure? ==> built.status != Ok)
    ensures var r := FinishConnect(t, built);
      && Bounded(r.session) && SameEndpoint(t, r.session)
      && (if r.status == Ok then
            r.session.phase == Connected && r.session.vs == 0 && r.session.vr == 0 && r.session.va == 0
            && r.session.disconnectPending == t.disconnectPending
          else r.session == t)
      && (built.Success? ==> r.output == built.value)
      && (r.status == Ok <==> built.Success?)
  {
  }

  lemma FrameBuilt(o: Options, control: HdlcControl, information: seq<Byte>)
    ensures var built, frame := BuildFrame(o, control, information), FrameTo(o, control, information);
      if built.Success? then Printable(frame) && built.value == Wire(frame) else built.status != Ok
  {
  }

  lemma ConnectResponseBuilt(s: Session)
    requires Bounded(s) && Consistent(s)
    ensures var r := BuildConnectResponse(s);
      var frame := FrameTo(ApplyAnswer(s).options, UA, AnswerInformation(s));
      && Bounded(r.session) && SameEndpoint(s, r.session)
      && (if r.status == Ok then
            s.connectPending && Printable(frame) && r.output == Wire(frame) && r.session.phase == Connected
            && r.session.vs == 0 && r.session.vr == 0 && r.session.va == 0
            && r.session.disconnectPending == s.disconnectPending
          else SameProgress(s, r.session) && r.session.connectPending == s.connectPending
               && r.session.disconnectPending == s.disconnectPending
               && (r.session == s || s.connectPending))
  {
    if s.options.role == Server && s.connectPending {
      var t := ApplyAnswer(s);
      ApplyAnswerBounded(s);
      FrameBuilt(t.options, UA, AnswerInformation(s));
      FinishConnectFacts(t, BuildFrame(t.options, UA, AnswerInformation(s)));
    }
  }

  lemma DisconnectRequestBuilt(s: Session, user: seq<Byte>)
    ensures var r := BuildDisconnectRequest(s, user);
      var frame := FrameTo(s.options, DISC, user);
      if r.status == Ok then
        s.phase == Connected && r.session == s.(phase := AwaitingDisconnect) && Printable(frame) && r.output == Wire(frame)
      else r.session == s
  {
  }

  lemma DisconnectResponseBuilt(s: Session)
    ensures var r := BuildDisconnectResponse(s);
      var frame := FrameTo(s.options, UA, []);
      if r.status == Ok then
        s.disconnectPending && r.session == Cleared(s).(phase := Disconnected, disconnectPending := false)
        && Printable(frame) && r.output == Wire(frame)
      else r.session == s
  {
  }

  // ----- Connection frames as they are printed

  /** A connection request of a client with this capability. */
  ghost predicate ProperRequest(packet: Packet, c: Capability) {
    packet.frame.information == [] || exists user :: packet.frame.information == EncodeBlock(Proposal(c)) + user
  }

  /** A connection response with windows in range. */
  ghost predicate ProperResponse(packet: Packet) {
    packet.frame.information == []
    || exists q: Params :: WindowRange(q.windowTx) && WindowRange(q.windowRx) && packet.frame.information == EncodeBlock(q)
  }

  lemma ResponseProper(s: Session, output: seq<Byte>)
    requires Bounded(s)
    ensures ProperResponse(Packet(output, FrameTo(ApplyAnswer(s).options, UA, AnswerInformation(s)), Response))
  {
    if s.pending.active {
      var q := SessionModel.Answer(s);
      assert WindowRange(q.windowTx) && WindowRange(q.windowRx);
    }
  }

  // ----- Accepting

  /** The windows that a proper request makes pending. */
  lemma ProposalPending(c: Capability, user: seq<Byte>)
    requires WindowRange(c.windowTransmit) && WindowRange(c.windowReceive)
    ensures var r := ParseField(EncodeBlock(Proposal(c)) + user);
      r.Success? && WindowRange(r.value.params.windowTx) && WindowRange(r.value.params.windowRx)
  {
    BlockRoundTrip(Proposal(c), user);
  }

  /** What an accepted connection request leaves. */
  predicate Asked(s: Session, r: Reply) {
    && r.status == Ok && Bounded(r.session) && Consistent(r.session) && SameEndpoint(s, r.session)
    && r.session.phase == Disconnected && r.session.connectPending
    && r.session.disconnectPending == s.disconnectPending
  }

  lemma SnrmParsedAsked(s: Session, parsed: Result<Negotiated>, information: seq<Byte>)
    requires s.options.role == Server && Bounded(s) && Consistent(s) && s.phase == Disconnected && !s.pending.active
    requires parsed.Success? && parsed.value.consumed <= |information|
    requires WindowRange(parsed.value.params.windowTx) && WindowRange(parsed.value.params.windowRx)
    ensures Asked(s, SnrmParsed(s, parsed, information))
  {
  }

  lemma SnrmAsked(c: Capability, s: Session, information: seq<Byte>)
    requires s.options.role == Server && Bounded(s) && Consistent(s) && s.phase == Disconnected
    requires WindowRange(c.windowTransmit) && WindowRange(c.windowReceive)
    requires information == [] || exists user :: information == EncodeBlock(Proposal(c)) + user
    ensures Asked(s, ReceiveSnrm(s, information))
  {
    if information != [] {
      var user :| information == EncodeBlock(Proposal(c)) + user;
      ProposalPending(c, user);
      SnrmParsedAsked(s.(userInformation := [], pending := s.pending.(active := false)), ParseField(information), information);
    }
  }

  /** The server accepts every proper connection request. */
  lemma RequestTaken(s: Session, packet: Packet, c: Capability)
    requires s.options.role == Server && Bounded(s) && Consistent(s) && s.phase == Disconnected
    requires WindowRange(c.windowTransmit) && WindowRange(c.windowReceive)
    requires FromPeer(s, packet.frame) && packet.frame.control == SNRM && ProperRequest(packet, c)
    ensures Asked(s, Receive(s, packet.frame))
  {
    UnnumberedFields();
    SnrmAsked(c, s, packet.frame.information);
    assert Receive(s, packet.frame) == ReceiveSnrm(s, packet.frame.information);
  }

  lemma AnswerAdopted(c: Session, information: seq<Byte>, q: Params)
    requires Bounded(c) && WindowRange(q.windowTx) && WindowRange(q.windowRx) && information == EncodeBlock(q)
    ensures WindowRange(AdoptAnswer(c, information).window)
    ensures AdoptAnswer(c, information).options.capability == c.options.capability
    ensures AdoptAnswer(c, information).pending == c.pending
    ensures AdoptAnswer(c, information).disconnectPending == c.disconnectPending
  {
    BlockRoundTrip(q, []);
    assert EncodeBlock(q) + [] == EncodeBlock(q);
  }

  /** What an accepted connection response leaves. */
  predicate Joined(c: Session, r: Reply) {
    && r.status == Ok && Bounded(r.session) && r.session.phase == Connected
    && r.session.vs == 0 && r.session.vr == 0 && r.session.va == 0
    && r.session.disconnectPending == c.disconnectPending
  }

  lemma UaJoined(c: Session, information: seq<Byte>)
    requires Bounded(c) && c.phase == AwaitingConnection
    requires information == []
      || exists q: Params :: WindowRange(q.windowTx) && WindowRange(q.windowRx) && information == EncodeBlock(q)
    ensures Joined(c, ReceiveUa(c, information))
  {
    if information != [] {
      var q: Params :| WindowRange(q.windowTx) && WindowRange(q.windowRx) && information == EncodeBlock(q);
      AnswerAdopted(c, information, q);
    }
  }

  /** The client accepts every proper connection response. */
  lemma ResponseAccepted(c: Session, packet: Packet)
    requires Bounded(c) && Consistent(c) && c.phase == AwaitingConnection
    requires FromPeer(c, packet.frame) && packet.frame.control == UA && ProperResponse(packet)
    ensures var r := Receive(c, packet.frame);
      Joined(c, r) && Consistent(r.session) && SameEndpoint(c, r.session)
  {
    UnnumberedFields();
    UaKeeps(c, packet.frame.information);
    UaJoined(c, packet.frame.information);
    assert Receive(c, packet.frame) == ReceiveUa(c, packet.frame.information);
  }

  lemma FarewellAccepted(s: Session, frame: Frame)
    requires s.phase == Connected && FromPeer(s, frame) && frame.control == DISC
    ensures Receive(s, frame) == Answered(s.(userInformation := frame.information, disconnectPending := true), Ok)
  {
    UnnumberedFields();
  }

  lemma ReleaseAccepted(s: Session, frame: Frame)
    requires s.phase == AwaitingDisconnect && FromPeer(s, frame) && frame.control == UA
    ensures Receive(s, frame) == Answered(Cleared(s).(phase := Disconnected), Ok)
  {
    UnnumberedFields();
  }

  // ----- Refusing

  /** Without a connection nothing numbered and no farewell is accepted, and a request for a
      connection only by a disconnected server. */
  lemma Refuses(s: Session, packet: Packet)
    requires s.phase != Connected && FromPeer(s, packet.frame) && Truthful(packet)
    requires Numbered(packet) || packet.meaning.Farewell? || (packet.meaning.Request? && s.phase != Disconnected)
    ensures var r := Receive(s, packet.frame); r.status != Ok && r.session == s
  {
    UnnumberedFields();
    if Numbered(packet) {
      ReceiveUnconnected(s, packet.frame);
    }
  }
}
