/** The session as the object it is: one field per member variable, updated in place
    (src/hdlc/hdlc_session.cpp). Each method is proved against the function of module SessionModel, keeps
    what holds between calls, and moves nothing unless it returns Ok. */
module SessionObject {
  import opened Types
  import opened Bits
  import opened ControlField
  import opened Codec
  import opened CodecBuffers
  import opened Negotiation
  import opened SessionModel
  import opened Link

  /** A call that does not return Ok moves neither the phase nor a counter, and builds nothing. */
  predicate NoProgress(before: Session, after: Session, status: Status, output: seq<Byte>) {
    status != Ok ==> SameProgress(before, after) && output == []
  }

  lemma WindowTestAll(s: Session)
    ensures forall acked: nat, sent: nat :: Counts(s, acked, sent) ==> (CanSend(s) <==> sent - acked < s.window)
  {
    forall acked: nat, sent: nat | Counts(s, acked, sent) ensures CanSend(s) <==> sent - acked < s.window {
      WindowTest(s, acked, sent);
    }
  }

  class HdlcSession {
    var options: Options
    var phase: Phase
    var sendSequence: Count8
    var receiveSequence: Count8
    var acknowledgeSequence: Count8
    var connectResponsePending: bool
    var disconnectResponsePending: bool
    var dmResponsePending: bool
    var pendingNegotiation: PendingNegotiation
    var negotiatedLimits: Capability
    var windowSizeTransmit: Byte
    var receivedUserInformation: seq<Byte>

    /** The value of the object. */
    function State(): Session
      reads this
    {
      Session(options, phase, sendSequence, receiveSequence, acknowledgeSequence, connectResponsePending,
              disconnectResponsePending, dmResponsePending, pendingNegotiation, negotiatedLimits,
              windowSizeTransmit, receivedUserInformation)
    }

    /** What holds between calls. */
    ghost predicate Valid()
      reads this
    {
      Consistent(State())
    }

    constructor (o: Options)
      ensures State() == Start(o) && Valid()
    {
      var capability := o.capability;
      if capability.lengthTransmit == 0 {
        capability := capability.(lengthTransmit := DEFAULT_MAX_INFO);
      }
      if capability.lengthReceive == 0 {
        capability := capability.(lengthReceive := DEFAULT_MAX_INFO);
      }
      if capability.windowTransmit == 0 {
        capability := capability.(windowTransmit := DEFAULT_WINDOW);
      }
      if capability.windowReceive == 0 {
        capability := capability.(windowReceive := DEFAULT_WINDOW);
      }
      options := o.(capability := capability);
      phase := Disconnected;
      sendSequence, receiveSequence, acknowledgeSequence := 0, 0, 0;
      connectResponsePending, disconnectResponsePending, dmResponsePending := false, false, false;
      pendingNegotiation := PendingNegotiation(false, DefaultParams());
      negotiatedLimits := capability;
      windowSizeTransmit := capability.windowTransmit;
      receivedUserInformation := [];
      new;
      StartConsistent(o);
    }

    /** Whatever true counts the three-bit counters stand for: there is room in the window. */
    predicate CanSendInformationFrame(): (room: bool)
      reads this
      ensures forall acked: nat, sent: nat :: Counts(State(), acked, sent) ==> (room <==> sent - acked < windowSizeTransmit)
      ensures room == CanSend(State())
    {
      WindowTestAll(State());
      var outstanding := (sendSequence - acknowledgeSequence) % 8;
      outstanding < windowSizeTransmit
    }

    method ClearSequences()
      modifies this`sendSequence, this`receiveSequence, this`acknowledgeSequence
      ensures State() == Cleared(old(State()))
    {
      sendSequence, receiveSequence, acknowledgeSequence := 0, 0, 0;
    }

    method BuildFrame(control: HdlcControl, information: seq<Byte>) returns (r: Result<seq<Byte>>)
      ensures r == SessionModel.BuildFrame(options, control, information)
    {
      r := EncodeFrameToVector(FrameTo(options, control, information), options.limits);
    }

    /** The overload without user information sends a block only if the capability is not the default. */
    method BuildConnectRequest() returns (status: Status, output: seq<Byte>)
      requires Valid()
      modifies this
      ensures Reply(State(), status, output) == Apply(old(State()), Call.ConnectRequest)
      ensures Valid() && NoProgress(old(State()), State(), status, output)
    {
      ConnectRequestKeeps(State(), options.capability != DefaultCapability(), []);
      var includeNegotiation := options.capability != DefaultCapability();
      status, output := BuildConnectRequestInternal(includeNegotiation, []);
    }

    /** The overload with user information always sends a block. */
    method BuildConnectRequestWith(user: seq<Byte>) returns (status: Status, output: seq<Byte>)
      requires Valid()
      modifies this
      ensures Reply(State(), status, output) == Apply(old(State()), Call.ConnectRequestWith(user))
      ensures Valid() && NoProgress(old(State()), State(), status, output)
    {
      ConnectRequestKeeps(State(), true, user);
      status, output := BuildConnectRequestInternal(true, user);
    }

    method BuildConnectRequestInternal(includeNegotiation: bool, user: seq<Byte>) returns (status: Status, output: seq<Byte>)
      requires Valid()
      modifies this
      ensures Reply(State(), status, output) == SessionModel.BuildConnectRequest(old(State()), includeNegotiation, user)
      ensures Valid() && NoProgress(old(State()), State(), status, output)
    {
      ConnectRequestKeeps(State(), includeNegotiation, user);
      if options.role != Client {
        return UnsupportedFeature, [];
      }
      if phase != Disconnected {
        return UnsupportedFrame, [];
      }
      var infoField := ConnectInformationField(includeNegotiation, user);
      var built := BuildFrame(SNRM, infoField);
      if built.Failure? {
        return built.status, [];
      }
      phase := AwaitingConnection;
      ClearSequences();
      return Ok, built.value;
    }

    /** The Information field of a connection request. */
    method ConnectInformationField(includeNegotiation: bool, user: seq<Byte>) returns (infoField: seq<Byte>)
      ensures infoField == ConnectInformation(options, includeNegotiation, user)
    {
      infoField := [];
      if includeNegotiation {
        infoField := EncodeSnrmNegotiationBlock(Proposal(options.capability), infoField);
        assert [] + EncodeBlock(Proposal(options.capability)) == EncodeBlock(Proposal(options.capability));
      }
      infoField := infoField + user;
    }

    /** Records limits for what this side transmits and receives from now on. */
    method Adopt(lengthTransmit: nat, windowTransmit: nat, lengthReceive: nat, windowReceive: nat)
      modifies this`negotiatedLimits, this`options, this`windowSizeTransmit
      ensures State() == Limited(old(State()), lengthTransmit, windowTransmit, lengthReceive, windowReceive)
    {
      negotiatedLimits := Capability(lengthTransmit, lengthReceive, windowTransmit % 0x100, windowReceive % 0x100);
      options := options.(limits := options.limits.(maximumInformationFieldSize := negotiatedLimits.lengthTransmit));
      windowSizeTransmit := negotiatedLimits.windowTransmit;
    }

    /** Settles the pending negotiation, if there is one, and prints the answer. */
    method NegotiateAnswer() returns (infoField: seq<Byte>)
      modifies this`negotiatedLimits, this`options, this`windowSizeTransmit
      ensures State() == ApplyAnswer(old(State())) && infoField == AnswerInformation(old(State()))
    {
      infoField := [];
      if pendingNegotiation.active {
        var negotiated := NegotiateParams(pendingNegotiation.params, options.capability);
        infoField := EncodeSnrmNegotiationBlock(negotiated, infoField);
        assert [] + EncodeBlock(negotiated) == EncodeBlock(negotiated);
        Adopt(negotiated.maxInfoRx, negotiated.windowRx, negotiated.maxInfoTx, negotiated.windowTx);
      }
    }

    method BuildConnectResponse() returns (status: Status, output: seq<Byte>)
      requires Valid()
      modifies this
      ensures Reply(State(), status, output) == SessionModel.BuildConnectResponse(old(State()))
      ensures Valid() && NoProgress(old(State()), State(), status, output)
    {
      ConnectResponseKeeps(State());
      if options.role != Server {
        return UnsupportedFeature, [];
      }
      if !connectResponsePending {
        return UnsupportedFrame, [];
      }
      var infoField := NegotiateAnswer();
      var built := BuildFrame(UA, infoField);
      if built.Failure? {
        return built.status, [];
      }
      Establish();
      return Ok, built.value;
    }

    method Establish()
      modifies this
      ensures State() == Cleared(old(State())).(phase := Connected, connectPending := false,
                                                pending := old(pendingNegotiation).(active := false))
    {
      phase := Connected;
      connectResponsePending := false;
      pendingNegotiation := pendingNegotiation.(active := false);
      ClearSequences();
    }

    method BuildDisconnectRequest(user: seq<Byte>) returns (status: Status, output: seq<Byte>)
      requires Valid()
      modifies this
      ensures Reply(State(), status, output) == SessionModel.BuildDisconnectRequest(old(State()), user)
      ensures Valid() && NoProgress(old(State()), State(), status, output)
    {
      DisconnectRequestKeeps(State(), user);
      if phase != Connected {
        return UnsupportedFrame, [];
      }
      var built := BuildFrame(DISC, user);
      if built.Failure? {
        return built.status, [];
      }
      phase := AwaitingDisconnect;
      return Ok, built.value;
    }

    method BuildDisconnectResponse() returns (status: Status, output: seq<Byte>)
      requires Valid()
      modifies this
      ensures Reply(State(), status, output) == SessionModel.BuildDisconnectResponse(old(State()))
      ensures Valid() && NoProgress(old(State()), State(), status, output)
    {
      DisconnectResponseKeeps(State());
      if !disconnectResponsePending {
        return UnsupportedFrame, [];
      }
      var built := BuildFrame(UA, []);
      if built.Failure? {
        return built.status, [];
      }
      phase := Disconnected;
      disconnectResponsePending := false;
      ClearSequences();
      return Ok, built.value;
    }

    method BuildDmResponse() returns (status: Status, output: seq<Byte>)
      requires Valid()
      modifies this`dmResponsePending
      ensures Reply(State(), status, output) == SessionModel.BuildDmResponse(old(State()))
      ensures Valid() && NoProgress(old(State()), State(), status, output)
    {
      DmResponseKeeps(State());
      if !dmResponsePending {
        return UnsupportedFrame, [];
      }
      var built := BuildFrame(DM, []);
      if built.Failure? {
        return built.status, [];
      }
      dmResponsePending := false;
      return Ok, built.value;
    }

    method BuildInformationFrame(information: seq<Byte>, pollFinal: bool) returns (status: Status, output: seq<Byte>)
      requires Valid()
      modifies this`sendSequence
      ensures Reply(State(), status, output) == SessionModel.BuildInformation(old(State()), information, pollFinal)
      ensures Valid() && NoProgress(old(State()), State(), status, output)
    {
      InformationKeeps(State(), information, pollFinal);
      if phase != Connected {
        return UnsupportedFrame, [];
      }
      if !CanSendInformationFrame() {
        return UnsupportedFrame, [];
      }
      var built := BuildFrame(InformationControl(sendSequence, receiveSequence, pollFinal), information);
      if built.Failure? {
        return built.status, [];
      }
      sendSequence := NextSequence(sendSequence);
      return Ok, built.value;
    }

    method BuildReceiveReadyFrame(pollFinal: bool) returns (status: Status, output: seq<Byte>)
      requires Valid()
      ensures Reply(State(), status, output) == SessionModel.BuildReceiveReady(State(), pollFinal)
      ensures Valid() && NoProgress(old(State()), State(), status, output)
    {
      ReceiveReadyKeeps(State(), pollFinal);
      if phase != Connected {
        return UnsupportedFrame, [];
      }
      var built := BuildFrame(ReceiveReadyControl(receiveSequence, pollFinal), []);
      if built.Failure? {
        return built.status, [];
      }
      return Ok, built.value;
    }

    method ReceiveFrame(frame: Frame) returns (status: Status)
      requires Valid()
      modifies this
      ensures Answered(State(), status) == Receive(old(State()), frame)
      ensures Valid() && NoProgress(old(State()), State(), status, [])
    {
      ReceiveKeeps(State(), frame);
      if frame.destination != Local(options) || frame.source != Remote(options) {
        return InvalidAddress;
      }
      match frame.control.Kind() {
        case Information => status := ReceiveInformationFrame(frame);
        case Supervisory => status := ReceiveSupervisoryFrame(frame);
        case Unnumbered => status := ReceiveUnnumberedFrame(frame);
      }
    }

    method ReceiveInformationFrame(frame: Frame) returns (status: Status)
      requires Valid()
      modifies this`acknowledgeSequence, this`receiveSequence
      ensures Answered(State(), status) == ReceiveInformation(old(State()), frame)
      ensures Valid() && NoProgress(old(State()), State(), status, [])
    {
      if phase != Connected {
        return UnsupportedFrame;
      }
      if frame.control.SendSequence() != receiveSequence {
        return InvalidControlField;
      }
      var nr := frame.control.ReceiveSequence();
      var ackToNr := (nr - acknowledgeSequence) % 8;
      var ackToSend := (sendSequence - acknowledgeSequence) % 8;
      if ackToNr > ackToSend {
        return InvalidControlField;
      }
      acknowledgeSequence := nr;
      receiveSequence := NextSequence(receiveSequence);
      return Ok;
    }

    method ReceiveSupervisoryFrame(frame: Frame) returns (status: Status)
      requires Valid()
      modifies this`acknowledgeSequence
      ensures Answered(State(), status) == ReceiveSupervisory(old(State()), frame)
      ensures Valid() && NoProgress(old(State()), State(), status, [])
    {
      if phase != Connected {
        return UnsupportedFrame;
      }
      var nr := frame.control.ReceiveSequence();
      var ackToNr := (nr - acknowledgeSequence) % 8;
      var ackToSend := (sendSequence - acknowledgeSequence) % 8;
      if ackToNr > ackToSend {
        return InvalidControlField;
      }
      acknowledgeSequence := nr;
      return Ok;
    }

    method ReceiveUnnumberedFrame(frame: Frame) returns (status: Status)
      requires Valid()
      modifies this
      ensures Answered(State(), status) == ReceiveUnnumbered(old(State()), frame)
      ensures Valid() && NoProgress(old(State()), State(), status, [])
    {
      UnnumberedKeeps(State(), frame);
      var kind := frame.control.UnnumberedCommand();
      if kind.Failure? {
        return kind.status;
      }
      match kind.value {
        case Snrm => status := ReceiveSnrmFrame(frame.information);
        case Ua => status := ReceiveUaFrame(frame.information);
        case Disc =>
          if phase != Connected {
            return UnsupportedFrame;
          }
          receivedUserInformation := frame.information;
          disconnectResponsePending := true;
          return Ok;
        case Dm =>
          phase := Disconnected;
          ClearSequences();
          return Ok;
        case Frmr => return UnsupportedFrame;
        case Ui => return UnsupportedFrame;
      }
    }

    method ReceiveSnrmFrame(information: seq<Byte>) returns (status: Status)
      requires Valid()
      modifies this
      ensures Answered(State(), status) == ReceiveSnrm(old(State()), information)
      ensures Valid() && NoProgress(old(State()), State(), status, [])
    {
      SnrmKeeps(State(), information);
      if options.role != Server || phase != Disconnected {
        return UnsupportedFrame;
      }
      receivedUserInformation := [];
      pendingNegotiation := pendingNegotiation.(active := false);
      if information != [] {
        status := ReceiveRequestFields(information);
        return;
      }
      connectResponsePending := true;
      ClearSequences();
      return Ok;
    }

    /** The Information field of a request: parameters, user information, or a reason to refuse. */
    method ReceiveRequestFields(information: seq<Byte>) returns (status: Status)
      modifies this
      ensures Answered(State(), status) == SnrmParsed(old(State()), ParseField(information), information)
    {
      var parsed := ParseSnrmInfoField(information);
      if parsed.Failure? {
        dmResponsePending := true;
        return parsed.status;
      }
      if parsed.value.consumed > 0 {
        pendingNegotiation := PendingNegotiation(true, parsed.value.params);
      }
      receivedUserInformation := information[parsed.value.consumed..];
      connectResponsePending := true;
      ClearSequences();
      return Ok;
    }

    method ReceiveUaFrame(information: seq<Byte>) returns (status: Status)
      requires Valid()
      modifies this
      ensures Answered(State(), status) == ReceiveUa(old(State()), information)
      ensures Valid() && NoProgress(old(State()), State(), status, [])
    {
      UaKeeps(State(), information);
      if phase == AwaitingConnection {
        if information != [] {
          var parsed := ParseSnrmInfoField(information);
          if parsed.Success? && parsed.value.consumed > 0 {
            var p := parsed.value.params;
            Adopt(p.maxInfoTx, p.windowTx, p.maxInfoRx, p.windowRx);
          }
        }
        phase := Connected;
        ClearSequences();
        return Ok;
      }
      if phase == AwaitingDisconnect {
        phase := Disconnected;
        ClearSequences();
        return Ok;
      }
      return UnsupportedFrame;
    }
  }
}
