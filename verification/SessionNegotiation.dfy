/** What connecting two sessions negotiates, through the bytes that they exchange. */
module SessionNegotiation {
  import opened Types
  import opened Bits
  import opened ControlField
  import opened Codec
  import opened Negotiation
  import opened SessionModel

  /** A client and a server configured for each other. */
  predicate Facing(c: Options, s: Options) {
    && c.role == Client && s.role == Server
    && c.clientAddress == s.clientAddress && c.serverAddress == s.serverAddress
  }

  predicate Opposite(c: Options, s: Options) {
    Local(c) == Remote(s) && Local(s) == Remote(c)
  }

  /** A frame that one session builds is decoded, under the default limits, to what it was built from. */
  lemma BuiltDecodes(o: Options, control: HdlcControl, information: seq<Byte>)
    requires BuildFrame(o, control, information).Success?
    ensures DecodeFrame(BuildFrame(o, control, information).value, DefaultLimits())
         == Success(FrameTo(o, control, information))
  {
    DefaultsAdmit(FrameTo(o, control, information));
  }

  /** A frame with this much Information can be built: it fits the frame limit and the length field, and
      an Information limit if there is one. */
  predicate Carries(o: Options, size: nat) {
    && 7 + o.clientAddress.size + o.serverAddress.size + (if size == 0 then 0 else size + 2)
       <= Min(EffectiveMaximumFrameSize(o.limits), 2049)
    && (o.limits.maximumInformationFieldSize != 0 ==> size <= o.limits.maximumInformationFieldSize)
  }

  lemma BuildExact(o: Options, control: HdlcControl, information: seq<Byte>)
    ensures BuildFrame(o, control, information).Success? <==> Carries(o, |information|)
  {
    var f := FrameTo(o, control, information);
    assert HeaderSize(f) == 3 + o.clientAddress.size + o.serverAddress.size;
    EncodableExact(f, o.limits);
  }

  // ----- The server's answer

  /** The client's limits as the block of its SNRM carries them. */
  function Proposed(c: Options): Params {
    Carried(Proposal(c.capability))
  }

  /** The server once it has accepted the client's request. */
  function AcceptedSession(c: Options, s: Session, user: seq<Byte>): Session {
    Cleared(s).(connectPending := true, pending := PendingNegotiation(true, Proposed(c)), userInformation := user)
  }

  lemma CarriedTwice(p: Params)
    ensures Carried(Carried(p)) == Carried(p)
  {
  }

  lemma ReceiveConnectRequest(c: Options, s: Session, user: seq<Byte>)
    requires Facing(c, s.options) && s.phase == Disconnected
    ensures Receive(s, FrameTo(c, SNRM, ConnectInformation(c, true, user)))
         == Answered(AcceptedSession(c, s, user), Ok)
  {
    UnnumberedFields();
    BlockRoundTrip(Proposal(c.capability), user);
  }

  /** The limits that both sides must end up with. */
  function Agreed(c: Options, s: Options): Params {
    NegotiateParams(Proposed(c), s.capability)
  }

  /** The limits of the client and of the server after a negotiation that settled on p. */
  predicate ClientHolds(c: Capability, p: Params) {
    c.lengthTransmit == p.maxInfoTx && c.lengthReceive == p.maxInfoRx
    && c.windowTransmit == p.windowTx && c.windowReceive == p.windowRx
  }

  predicate ServerHolds(s: Capability, p: Params) {
    s.lengthTransmit == p.maxInfoRx && s.lengthReceive == p.maxInfoTx
    && s.windowTransmit == p.windowRx && s.windowReceive == p.windowTx
  }

  lemma AnswerApplied(s: Session)
    requires s.pending.active
    ensures ServerHolds(ApplyAnswer(s).negotiated, Answer(s)) && Tied(ApplyAnswer(s))
    ensures ApplyAnswer(s).window == ApplyAnswer(s).negotiated.windowTransmit
  {
  }

  /** The client learns what the block carries of the answer. */
  lemma ReceiveConnectResponse(c: Session, s: Session)
    requires Facing(c.options, s.options) && c.phase == AwaitingConnection && s.pending.active
    ensures var frame := FrameTo(ApplyAnswer(s).options, UA, AnswerInformation(s));
      var r := Receive(c, frame);
      && r.status == Ok && r.session.phase == Connected
      && ClientHolds(r.session.negotiated, Carried(Answer(s))) && Tied(r.session)
      && r.session.window == r.session.negotiated.windowTransmit
  {
    UnnumberedFields();
    AnswerParsed(s);
  }

  lemma AnswerParsed(s: Session)
    requires s.pending.active
    ensures ParseField(AnswerInformation(s)) == Success(Negotiated(Carried(Answer(s)), 23))
    ensures Carried(Answer(s)) == Answer(s) <==> Answer(s).maxInfoTx < 0x1_0000 && Answer(s).maxInfoRx < 0x1_0000
  {
    BlockRoundTrip(Answer(s), []);
    assert EncodeBlock(Answer(s)) + [] == EncodeBlock(Answer(s));
  }

  /** A UA with these parameters can be built: the frame has room for the 23 bytes of the block, and so
      has the length that this side may transmit from now on, unless it is zero, which lifts the limit. */
  predicate Answerable(o: Options, a: Params) {
    && (a.maxInfoRx == 0 || a.maxInfoRx >= 23)
    && 32 + o.clientAddress.size + o.serverAddress.size <= EffectiveMaximumFrameSize(o.limits)
  }

  predicate MayAnswer(s: Session) {
    && s.options.role == Server && s.connectPending
    && (if s.pending.active then Answerable(s.options, Answer(s)) else Carries(s.options, 0))
  }

  /** A UA is built if and only if a request is pending at a server and, with parameters, the frame and
      the newly negotiated length leave room for them. */
  lemma AnswerBuilt(s: Session)
    ensures BuildConnectResponse(s).status == Ok <==> MayAnswer(s)
  {
    var t := ApplyAnswer(s);
    BuildExact(t.options, UA, AnswerInformation(s));
    AnswerFinished(t, BuildFrame(t.options, UA, AnswerInformation(s)));
  }

  lemma AnswerFinished(t: Session, built: Result<seq<Byte>>)
    requires built.Failure? ==> built.status != Ok
    ensures FinishConnect(t, built).status == Ok <==> built.Success?
  {
  }

  /** The client's request, as the server's decoder sees it. */
  lemma RequestDecodes(c: Session, user: seq<Byte>)
    requires BuildConnectRequest(c, true, user).status == Ok
    ensures DecodeFrame(BuildConnectRequest(c, true, user).output, DefaultLimits())
         == Success(FrameTo(c.options, SNRM, ConnectInformation(c.options, true, user)))
    ensures BuildConnectRequest(c, true, user).session == Cleared(c).(phase := AwaitingConnection)
  {
    BuiltDecodes(c.options, SNRM, ConnectInformation(c.options, true, user));
  }

  /** The server's response, as the client's decoder sees it. */
  lemma ResponseDecodes(s: Session)
    requires BuildConnectResponse(s).status == Ok
    ensures DecodeFrame(BuildConnectResponse(s).output, DefaultLimits())
         == Success(FrameTo(ApplyAnswer(s).options, UA, AnswerInformation(s)))
    ensures BuildConnectResponse(s).session.phase == Connected
    ensures BuildConnectResponse(s).session.negotiated == ApplyAnswer(s).negotiated
  {
    BuiltDecodes(ApplyAnswer(s).options, UA, AnswerInformation(s));
  }

  /** What one side may transmit is what the other receives. */
  predicate Mirrors(c: Capability, s: Capability) {
    c.lengthTransmit == s.lengthReceive && c.lengthReceive == s.lengthTransmit
    && c.windowTransmit == s.windowReceive && c.windowReceive == s.windowTransmit
  }

  /** One of the two lengths, and so the smaller one, has 16 bits. */
  predicate Announceable(length: nat, bound: nat) {
    length < 0x1_0000 || bound < 0x1_0000
  }

  /** The server builds its UA, and as bytes it connects the client. */
  ghost predicate Connects(awaiting: Session, accepted: Session) {
    var response := BuildConnectResponse(accepted);
    && response.status == Ok && response.session.phase == Connected
    && var ua := DecodeFrame(response.output, DefaultLimits());
    && ua.Success?
    && Receive(awaiting, ua.value).status == Ok && Receive(awaiting, ua.value).session.phase == Connected
  }

  /** The client after that. */
  function Confirmed(awaiting: Session, accepted: Session): Session
    requires Connects(awaiting, accepted)
  {
    Receive(awaiting, DecodeFrame(BuildConnectResponse(accepted).output, DefaultLimits()).value).session
  }

  /** Whatever block was accepted: once the answer can be built, both sides connect, the server holds
      the minima and the client what 16 bits carry of them; and the two agree if and only if, each
      way, the proposal or the server's own length is below 65536. */
  lemma AgreementExact(awaiting: Session, accepted: Session)
    requires Facing(awaiting.options, accepted.options) && awaiting.phase == AwaitingConnection
    requires accepted.pending.active && MayAnswer(accepted)
    ensures Connects(awaiting, accepted)
    ensures var c, s := Confirmed(awaiting, accepted).negotiated, BuildConnectResponse(accepted).session.negotiated;
      && ServerHolds(s, Answer(accepted)) && ClientHolds(c, Carried(Answer(accepted)))
      && (Mirrors(c, s) <==>
            && Announceable(accepted.pending.params.maxInfoTx, accepted.options.capability.lengthReceive)
            && Announceable(accepted.pending.params.maxInfoRx, accepted.options.capability.lengthTransmit))
  {
    AnswerBuilt(accepted);
    ResponseDecodes(accepted);
    AnswerApplied(accepted);
    ReceiveConnectResponse(awaiting, accepted);
    AnswerParsed(accepted);
  }

  /** The second half of the exchange: both sides connect and hold these values. */
  ghost predicate Confirms(awaiting: Session, accepted: Session, agreed: Params) {
    && Connects(awaiting, accepted)
    && ClientHolds(Confirmed(awaiting, accepted).negotiated, agreed)
    && ServerHolds(BuildConnectResponse(accepted).session.negotiated, agreed)
  }

  /** The whole exchange that a built request starts: if the answer to it can be built, it is and it
      connects both sides with these values, and otherwise it is refused. */
  ghost predicate Settles(request: Reply, s: Session, user: seq<Byte>, agreed: Params) {
    var snrm := DecodeFrame(request.output, DefaultLimits());
    && snrm.Success?
    && var accepted := Receive(s, snrm.value);
    && accepted.status == Ok && accepted.session.userInformation == user
    && if Answerable(s.options, agreed) then Confirms(request.session, accepted.session, agreed)
       else BuildConnectResponse(accepted.session).status != Ok
  }

  lemma RequestSettles(request: Reply, frame: Frame, accepted: Session, s: Session, user: seq<Byte>)
    requires request.session.phase == AwaitingConnection && Facing(request.session.options, accepted.options)
    requires DecodeFrame(request.output, DefaultLimits()) == Success(frame)
    requires Receive(s, frame) == Answered(accepted, Ok) && accepted.userInformation == user
    requires accepted.connectPending && accepted.options == s.options
    requires accepted.pending.active && accepted.pending.params == Carried(accepted.pending.params)
    ensures Settles(request, s, user, Answer(accepted))
  {
    AnswerBuilt(accepted);
    if Answerable(s.options, Answer(accepted)) {
      AgreementExact(request.session, accepted);
      AnswerParsed(accepted);
    }
  }

  /** Negotiation agrees: when the client's SNRM with a parameter block is built and reaches the
      server as bytes, the server accepts it with the user information in it; its UA is built if and
      only if it fits, and then, as bytes, it leaves both sides connected and holding, value by value,
      the minimum of what the client proposed and what the server can do: what one side may
      transmit is what the other receives. */
  lemma NegotiationAgrees(c: Session, s: Session, user: seq<Byte>)
    requires Facing(c.options, s.options) && c.phase == Disconnected && s.phase == Disconnected
    requires BuildConnectRequest(c, true, user).status == Ok
    ensures Settles(BuildConnectRequest(c, true, user), s, user, Agreed(c.options, s.options))
  {
    RequestDecodes(c, user);
    RequestAccepted(BuildConnectRequest(c, true, user), c.options, s, user);
  }

  lemma RequestAccepted(request: Reply, c: Options, s: Session, user: seq<Byte>)
    requires Facing(c, s.options) && s.phase == Disconnected
    requires request.session.phase == AwaitingConnection && request.session.options == c
    requires DecodeFrame(request.output, DefaultLimits()) == Success(FrameTo(c, SNRM, ConnectInformation(c, true, user)))
    ensures Settles(request, s, user, Agreed(c, s.options))
  {
    var frame, accepted := FrameTo(c, SNRM, ConnectInformation(c, true, user)), AcceptedSession(c, s, user);
    ReceiveConnectRequest(c, s, user);
    CarriedTwice(Proposal(c.capability));
    RequestSettles(request, frame, accepted, s, user);
  }

  /** The most that both sides can do, direction by direction. */
  function CommonMaximum(c: Capability, s: Capability): Params {
    Params(Min(c.lengthTransmit, s.lengthReceive), Min(c.lengthReceive, s.lengthTransmit),
           Min(c.windowTransmit, s.windowReceive), Min(c.windowReceive, s.windowTransmit))
  }

  predicate Below(p: Params, q: Params) {
    p.maxInfoTx <= q.maxInfoTx && p.maxInfoRx <= q.maxInfoRx && p.windowTx <= q.windowTx && p.windowRx <= q.windowRx
  }

  /** Cutting the client's length to 16 bits makes no difference beside the server's bound. */
  predicate SurvivesBlock(length: nat, bound: nat) {
    length < 0x1_0000 || bound <= length % 0x1_0000
  }

  lemma CutMinimum(length: nat, bound: nat)
    ensures Min(length % 0x1_0000, bound) <= Min(length, bound)
    ensures Min(length % 0x1_0000, bound) == Min(length, bound) <==> SurvivesBlock(length, bound)
  {
    assert length % 0x1_0000 <= length;
    if length >= 0x1_0000 {
      assert length % 0x1_0000 < length;
    }
  }

  /** Negotiation settles on nothing that one of the sides cannot do, and on the most that both can
      do if and only if both of the client's lengths survive the 16 bits of the block. */
  lemma AgreedMinimum(c: Options, s: Options)
    ensures var a, most := Agreed(c, s), CommonMaximum(c.capability, s.capability);
      && Below(a, most)
      && (a == most <==> SurvivesBlock(c.capability.lengthTransmit, s.capability.lengthReceive)
                         && SurvivesBlock(c.capability.lengthReceive, s.capability.lengthTransmit))
  {
    CutMinimum(c.capability.lengthTransmit, s.capability.lengthReceive);
    CutMinimum(c.capability.lengthReceive, s.capability.lengthTransmit);
  }

  const STANDARD_LENGTH: nat := 2030
  const STANDARD_WINDOW: nat := 7

  /** Of two lengths the smaller one, as 16 bits carry it, is within the standard. */
  predicate AnswersLength(proposed: nat, local: nat) {
    proposed <= STANDARD_LENGTH || local <= STANDARD_LENGTH || Min(proposed, local) % 0x1_0000 <= STANDARD_LENGTH
  }

  /** The values in the UA are within the standard's maxima of 2030 and 7 if and only if for each of
      them the proposal or the server itself is, or the 16 bits of a length make it so, and no window
      is zero: nothing in the code bounds them. */
  lemma ConformingAnswer(s: Session)
    requires Consistent(s) && s.pending.active
    ensures ParseField(AnswerInformation(s)).Success?
    ensures var ua, proposed, local := ParseField(AnswerInformation(s)).value.params, s.pending.params, s.options.capability;
      1 <= ua.windowTx <= STANDARD_WINDOW && 1 <= ua.windowRx <= STANDARD_WINDOW <==>
        && proposed.windowTx != 0 && (proposed.windowTx <= STANDARD_WINDOW || local.windowReceive <= STANDARD_WINDOW)
        && proposed.windowRx != 0 && (proposed.windowRx <= STANDARD_WINDOW || local.windowTransmit <= STANDARD_WINDOW)
    ensures var ua, proposed, local := ParseField(AnswerInformation(s)).value.params, s.pending.params, s.options.capability;
      ua.maxInfoTx <= STANDARD_LENGTH && ua.maxInfoRx <= STANDARD_LENGTH <==>
        AnswersLength(proposed.maxInfoTx, local.lengthReceive) && AnswersLength(proposed.maxInfoRx, local.lengthTransmit)
  {
    AnswerParsed(s);
  }

  /** It happens: two stations that can do 4096 bytes and 8 frames settle on both, through the bytes
      exchanged, whenever the UA fits the server's frames. */
  lemma NonconformingAnswer(c: Session, s: Session, user: seq<Byte>)
    requires Facing(c.options, s.options) && c.phase == Disconnected && s.phase == Disconnected
    requires BuildConnectRequest(c, true, user).status == Ok
    requires c.options.capability == s.options.capability == Capability(4096, 4096, 8, 8)
    requires 32 + s.options.clientAddress.size + s.options.serverAddress.size <= EffectiveMaximumFrameSize(s.options.limits)
    ensures Answerable(s.options, Params(4096, 4096, 8, 8))
    ensures Settles(BuildConnectRequest(c, true, user), s, user, Params(4096, 4096, 8, 8))
  {
    NegotiationAgrees(c, s, user);
    AgreedMinimum(c.options, s.options);
  }

  // ----- Lengths of more than 16 bits

  const LONG_PROPOSAL: seq<Byte> := [0x81, 0x80, 0x0c, 0x05, 0x04, 0x00, 0x01, 0x00, 0x64, 0x06, 0x04, 0x00, 0x01, 0x00, 0x64]

  lemma LongValue()
    ensures BigEndian([0x00, 0x01, 0x00, 0x64]) == 65636
  {
    var v: seq<Byte> := [0x00, 0x01, 0x00, 0x64];
    assert v[..3][..2] == v[..2] && v[..2][..1] == v[..1] && v[..1][..0] == [];
    assert BigEndian(v[..1]) == 0;
    assert BigEndian(v[..2]) == 1;
    assert BigEndian(v[..3]) == 0x100;
  }

  lemma LongProposalParsed()
    ensures ParseField(LONG_PROPOSAL) == Success(Negotiated(Params(65636, 65636, 1, 1), 15))
  {
    var first, second := Entry(5, [0x00, 0x01, 0x00, 0x64]), Entry(6, [0x00, 0x01, 0x00, 0x64]);
    LongValue();
    assert LONG_PROPOSAL[3..15] == PrintEntry(first) + (PrintEntry(second) + []);
    ParseOne(first, PrintEntry(second) + [], DefaultParams());
    ParseOne(second, [], DefaultParams().(maxInfoTx := 65636));
  }

  /** The server keeps this length, and the client is told that one. */
  ghost predicate Differ(awaiting: Session, accepted: Session, kept: nat, told: nat) {
    && Connects(awaiting, accepted)
    && BuildConnectResponse(accepted).session.negotiated.lengthTransmit == kept
    && Confirmed(awaiting, accepted).negotiated.lengthReceive == told
  }

  lemma AnsweredApart(awaiting: Session, accepted: Session, kept: nat, told: nat)
    requires Facing(awaiting.options, accepted.options) && awaiting.phase == AwaitingConnection
    requires accepted.pending.active && MayAnswer(accepted)
    requires Answer(accepted).maxInfoRx == kept && told == kept % 0x1_0000
    ensures Differ(awaiting, accepted, kept, told)
  {
    AgreementExact(awaiting, accepted);
  }

  lemma LongAnswer(accepted: Session)
    requires accepted.options.role == Server && accepted.options.limits == DefaultLimits()
    requires accepted.options.capability == Capability(70000, 70000, 1, 1) && accepted.connectPending
    requires accepted.pending == PendingNegotiation(true, Params(65636, 65636, 1, 1))
    ensures MayAnswer(accepted) && Answer(accepted).maxInfoRx == 65636
  {
  }

  /** The two sides disagree, in a run from the start: a server that can do 70000 bytes accepts a
      proposal of 65636, keeps that, and tells the client 100. */
  lemma Disagreement(o: Options, snrm: Frame, awaiting: Session)
    requires o.role == Server && o.limits == DefaultLimits() && o.capability == Capability(70000, 70000, 1, 1)
    requires snrm.destination == o.serverAddress && snrm.source == o.clientAddress
    requires snrm.control == SNRM && snrm.information == LONG_PROPOSAL
    requires Facing(awaiting.options, o) && awaiting.phase == AwaitingConnection
    ensures var accepted := Run(Start(o), [ReceiveFrame(snrm)]);
      Differ(awaiting, accepted, 65636, 100)
  {
    var accepted := Run(Start(o), [ReceiveFrame(snrm)]);
    LongAccepted(o, snrm);
    LongAnswer(accepted);
    AnsweredApart(awaiting, accepted, 65636, 100);
  }

  lemma LongAccepted(o: Options, snrm: Frame)
    requires o.role == Server && o.capability == Normalise(o.capability)
    requires snrm.destination == o.serverAddress && snrm.source == o.clientAddress
    requires snrm.control == SNRM && snrm.information == LONG_PROPOSAL
    ensures var t := Run(Start(o), [ReceiveFrame(snrm)]);
      t.options == o && t.connectPending && t.pending == PendingNegotiation(true, Params(65636, 65636, 1, 1))
  {
    UnnumberedFields();
    LongProposalParsed();
    RunOne(Start(o), ReceiveFrame(snrm));
    assert Receive(Start(o), snrm) == ReceiveSnrm(Start(o), snrm.information);
  }

  lemma RunOne(s: Session, call: Call)
    ensures Run(s, [call]) == Apply(s, call).session
  {
    assert [call][1..] == [];
    assert Run(Apply(s, call).session, []) == Apply(s, call).session;
  }

  // ----- Across reconnects

  /** After any calls whatever, the server answers a parameter block with the minimum of the latest
      proposal and the capability it was constructed with: earlier results do not ratchet it down. */
  lemma NeverRatchets(o: Options, calls: seq<Call>)
    ensures var s := Run(Start(o), calls);
      s.pending.active ==>
        && s.connectPending
        && ServerHolds(BuildConnectResponse(s).session.negotiated, NegotiateParams(s.pending.params, Normalise(o.capability)))
  {
    StartConsistent(o);
    RunKeeps(Start(o), calls);
    var s := Run(Start(o), calls);
    if s.pending.active {
      AnswerApplied(s);
    }
  }
}
