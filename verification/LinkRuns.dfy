/** Every run of two linked sessions: connecting, exchanging, disconnecting from either side, and
    connecting again. */
module LinkRuns {
  import opened Types
  import opened Bits
  import opened Codec
  import opened Negotiation
  import opened SessionModel
  import opened SessionNegotiation
  import opened Link
  import opened LinkLines
  import opened LinkCalls

  // ----- Configuration and books

  predicate Configured(p: Pair) {
    && Facing(p.near.options, p.far.options)
    && Bounded(p.near) && Bounded(p.far)
    && Consistent(p.near) && Consistent(p.far)
  }

  /** What one direction of one connection guarantees, up to its end. */
  predicate InOrder(f: Flow, window: nat) {
    f.delivered <= f.sent && f.acked <= |f.delivered| <= |f.sent| <= f.acked + window
  }

  predicate Settled(p: Pair) {
    InOrder(p.out, 7) && InOrder(p.back, 7)
  }

  predicate PastSettled(p: Pair) {
    forall f :: f in p.past ==> InOrder(f, 7)
  }

  lemma FlowsSettled(p: Pair, faithful: bool)
    requires Flows(p, faithful)
    ensures Settled(p)
  {
  }

  /** Nothing was sent or acknowledged. */
  predicate Fresh(f: Flow) {
    f.sent == [] && f.delivered == [] && f.acked == 0 && f.announced == 0
  }

  /** Connection frames on the lines are as the two sides print them. */
  ghost predicate Proper(p: Pair) {
    && (forall i :: 0 <= i < |p.out.wire| && p.out.wire[i].meaning.Request? ==>
                      ProperRequest(p.out.wire[i], p.near.options.capability))
    && (forall i :: 0 <= i < |p.back.wire| && p.back.wire[i].meaning.Response? ==> ProperResponse(p.back.wire[i]))
  }

  // ----- Stages of a connection; the near end is the client

  predicate NoneOwed(p: Pair) {
    !p.near.disconnectPending && !p.far.disconnectPending
  }

  /** Both sides are down. */
  predicate Unconnected(p: Pair, faithful: bool) {
    && p.near.phase == Disconnected && p.far.phase == Disconnected && !p.far.connectPending && NoneOwed(p)
    && p.out.wire == [] && p.back.wire == []
    && (faithful ==> Fresh(p.out) && Fresh(p.back))
  }

  /** The client has asked for a connection, or its request was lost. */
  predicate Requested(p: Pair, faithful: bool) {
    && p.near.phase == AwaitingConnection && p.far.phase == Disconnected && NoneOwed(p)
    && Line(p.out.wire, 4, 4) && p.back.wire == []
    && (p.far.connectPending ==> p.out.wire == [])
    && (faithful ==> Fresh(p.out) && Fresh(p.back) && (p.out.wire == [] ==> p.far.connectPending))
  }

  /** The server is up, and it may already be leaving. */
  predicate Serving(p: Pair) {
    p.far.phase == Connected || p.far.phase == AwaitingDisconnect
  }

  /** The highest rank that a server which is up or leaving has sent. */
  function Sent(p: Pair): nat {
    if p.far.phase == Connected then 1 else 2
  }

  /** The server has answered and the client does not know it yet. */
  predicate Responded(p: Pair, faithful: bool) {
    && p.near.phase == AwaitingConnection && Serving(p) && NoneOwed(p)
    && p.out.wire == [] && p.out.sent == [] && Line(p.back.wire, 0, Sent(p))
    && (faithful ==> p.far.phase == Connected && p.back.wire != [] && p.back.wire[0].meaning.Response?)
  }

  /** The client is up. It owes a release only to a server that has left and is no longer heard. */
  predicate Up(p: Pair, faithful: bool) {
    && p.near.phase == Connected && Serving(p) && !p.far.disconnectPending
    && Line(p.out.wire, 1, 1) && Line(p.back.wire, 1, Sent(p))
    && (p.near.disconnectPending ==> p.far.phase == AwaitingDisconnect && p.back.wire == [])
    && (faithful ==> p.far.phase == Connected)
  }

  /** The client has asked to disconnect while the server is up or leaving as well. */
  predicate Leaving(p: Pair) {
    && p.near.phase == AwaitingDisconnect && Serving(p)
    && Line(p.out.wire, 1, 2) && Line(p.back.wire, 1, Sent(p))
    && (p.near.disconnectPending ==> p.far.phase == AwaitingDisconnect && p.back.wire == [])
    && (p.far.disconnectPending ==> p.out.wire == [])
    && !(p.near.disconnectPending && p.far.disconnectPending)
  }

  /** The server has released the client, which does not know it yet. */
  predicate Released(p: Pair) {
    && p.near.phase == AwaitingDisconnect && p.far.phase == Disconnected && !p.far.connectPending && NoneOwed(p)
    && p.out.wire == [] && Line(p.back.wire, 1, 3)
  }

  /** The client has released the server, which does not know it yet; it may be asking again. */
  predicate Gone(p: Pair) {
    && (p.near.phase == Disconnected || p.near.phase == AwaitingConnection) && p.far.phase == AwaitingDisconnect
    && NoneOwed(p) && p.back.wire == []
    && Line(p.out.wire, 1, if p.near.phase == Disconnected then 3 else 4)
  }

  /** The stages in which the books of the connection are tied to the counters. */
  predicate Running(p: Pair, faithful: bool) {
    Responded(p, faithful) || Up(p, faithful) || (!faithful && Leaving(p))
  }

  predicate Resting(p: Pair, faithful: bool) {
    Unconnected(p, faithful) || Requested(p, faithful) || (!faithful && (Released(p) || Gone(p)))
  }

  /** The sessions and the lines, whatever the stage. */
  ghost predicate Base(p: Pair, faithful: bool) {
    Configured(p) && Honest(p) && Proper(p) && PastSettled(p) && (faithful ==> p.rx == DefaultLimits())
  }

  predicate Stage(p: Pair, faithful: bool) {
    (Running(p, faithful) && Flows(p, faithful)) || (Resting(p, faithful) && Settled(p))
  }

  ghost predicate Inv(p: Pair, faithful: bool) {
    Base(p, faithful) && Stage(p, faithful)
  }

  // ----- Actions

  datatype Action =
    | Connect(user: Option<seq<Byte>>)
    | Answer
    | Send(byClient: bool, payload: seq<Byte>, pollFinal: bool)
    | Acknowledge(byClient: bool, pollFinal: bool)
    | Disconnect(byClient: bool, parting: seq<Byte>)
    | LetGo(byClient: bool)
    | Arrive(atClient: bool, bytes: seq<Byte>)
    | Lose(fromClient: bool, i: nat)

  /** Frames arrive in order. In a faithful run all of them do, undamaged, and nobody disconnects. */
  ghost predicate Enabled(p: Pair, a: Action, faithful: bool) {
    match a
    case Arrive(atClient, bytes) =>
      var wire := if atClient then p.back.wire else p.out.wire;
      wire != [] && MayArrive(wire[0], bytes, faithful)
    case Lose(fromClient, i) =>
      !faithful && i < |(if fromClient then p.out.wire else p.back.wire)|
    case Disconnect(_, _) => !faithful
    case LetGo(_) => !faithful
    case _ => true
  }

  ghost function Do(p: Pair, a: Action, faithful: bool): Pair
    requires Enabled(p, a, faithful)
  {
    match a
    case Connect(user) => ConnectStep(p, user)
    case Answer => Flip(AnswerStep(Flip(p)))
    case Send(byClient, payload, pollFinal) =>
      if byClient then SendStep(p, payload, pollFinal) else Flip(SendStep(Flip(p), payload, pollFinal))
    case Acknowledge(byClient, pollFinal) =>
      if byClient then AcknowledgeStep(p, pollFinal) else Flip(AcknowledgeStep(Flip(p), pollFinal))
    case Disconnect(byClient, parting) =>
      if byClient then DisconnectStep(p, parting) else Flip(DisconnectStep(Flip(p), parting))
    case LetGo(byClient) =>
      if byClient then ReleaseStep(p) else Flip(ReleaseStep(Flip(p)))
    case Arrive(atClient, bytes) =>
      if atClient then DeliverStep(p, bytes) else Flip(DeliverStep(Flip(p), bytes))
    case Lose(fromClient, i) =>
      if fromClient then LoseStep(p, i) else Flip(LoseStep(Flip(p), i))
  }

  lemma FlipFlows(p: Pair, faithful: bool)
    ensures Flows(p, faithful) <==> Flows(Flip(p), faithful)
    ensures Honest(p) <==> Honest(Flip(p))
    ensures Flip(Flip(p)) == p
  {
  }

  // ----- What every step keeps

  /** A session that may take the place of another. */
  predicate Replaces(x: Session, y: Session) {
    SameEndpoint(x, y) && Consistent(y) && Bounded(y)
  }

  lemma CountersReplace(x: Session, vs: Count8, vr: Count8, va: Count8)
    requires x.phase == Connected && Consistent(x) && Bounded(x)
    ensures Replaces(x, x.(vs := vs, vr := vr, va := va))
  {
  }

  lemma BaseBuilt(p: Pair, r: Reply, frame: Frame, meaning: Meaning, faithful: bool)
    requires Base(p, faithful) && Replaces(p.near, r.session)
    requires r.status == Ok ==>
      Genuine(Packet(r.output, frame, meaning), p.near.options) && Truthful(Packet(r.output, frame, meaning))
    requires !meaning.Response?
    requires meaning.Request? ==> ProperRequest(Packet(r.output, frame, meaning), p.near.options.capability)
    ensures Base(Built(p, r, frame, meaning), faithful)
  {
    BuiltHonest(p, r, frame, meaning);
  }

  lemma BaseBuiltByServer(p: Pair, r: Reply, frame: Frame, meaning: Meaning, faithful: bool)
    requires Base(p, faithful) && Replaces(p.far, r.session)
    requires r.status == Ok ==>
      Genuine(Packet(r.output, frame, meaning), p.far.options) && Truthful(Packet(r.output, frame, meaning))
    requires meaning.Response? ==> ProperResponse(Packet(r.output, frame, meaning))
    ensures Base(Flip(Built(Flip(p), r, frame, meaning)), faithful)
  {
    BuiltHonest(Flip(p), r, frame, meaning);
  }

  /** The same line, or the line without its first packet. */
  predicate Behind(wire: seq<Packet>, wire': seq<Packet>) {
    wire' == wire || (wire != [] && wire' == wire[1..])
  }

  lemma BaseMoved(p: Pair, q: Pair, faithful: bool)
    requires Base(p, faithful) && Replaces(p.near, q.near) && Replaces(p.far, q.far)
    requires q.past == p.past && q.rx == p.rx && Behind(p.out.wire, q.out.wire) && Behind(p.back.wire, q.back.wire)
    ensures Base(q, faithful)
  {
    HonestMoved(p, q);
    ProperMoved(p, q);
  }

  lemma HonestMoved(p: Pair, q: Pair)
    requires Honest(p) && SameEndpoint(p.near, q.near) && SameEndpoint(p.far, q.far)
    requires Behind(p.out.wire, q.out.wire) && Behind(p.back.wire, q.back.wire)
    ensures Honest(q)
  {
  }

  lemma ProperMoved(p: Pair, q: Pair)
    requires Proper(p) && SameEndpoint(p.near, q.near)
    requires Behind(p.out.wire, q.out.wire) && Behind(p.back.wire, q.back.wire)
    ensures Proper(q)
  {
  }

  // ----- Connecting

  lemma ConnectStepBuilds(p: Pair, user: Option<seq<Byte>>)
    ensures var negotiate, u := user.Some? || p.near.options.capability != DefaultCapability(),
                                if user.Some? then user.value else [];
      ConnectStep(p, user) == Built(p, BuildConnectRequest(p.near, negotiate, u),
        FrameTo(p.near.options, SNRM, ConnectInformation(p.near.options, negotiate, u)), Request)
  {
  }

  lemma ConnectInv(p: Pair, user: Option<seq<Byte>>, faithful: bool)
    requires Inv(p, faithful)
    ensures Inv(ConnectStep(p, user), faithful)
  {
    var o := p.near.options;
    var negotiate := user.Some? || o.capability != DefaultCapability();
    var u := if user.Some? then user.value else [];
    var frame := FrameTo(o, SNRM, ConnectInformation(o, negotiate, u));
    ConnectStepBuilds(p, user);
    ConnectRequestBuilt(p.near, negotiate, u);
    if negotiate {
      assert frame.information == EncodeBlock(Proposal(o.capability)) + u;
    } else {
      assert frame.information == [] + [];
    }
    RequestInv(p, BuildConnectRequest(p.near, negotiate, u), frame, faithful);
  }

  /** A request that was built, given what it looks like. */
  lemma RequestInv(p: Pair, r: Reply, frame: Frame, faithful: bool)
    requires Inv(p, faithful)
    requires frame.destination == Remote(p.near.options) && frame.source == Local(p.near.options) && frame.control == SNRM
    requires ProperRequest(Packet(r.output, frame, Request), p.near.options.capability)
    requires if r.status == Ok then
        p.near.phase == Disconnected && r.session == Cleared(p.near).(phase := AwaitingConnection)
        && Printable(frame) && r.output == Wire(frame)
      else r.session == p.near
    ensures Inv(Built(p, r, frame, Request), faithful)
  {
    var q := Built(p, r, frame, Request);
    if r.status == Ok {
      BaseBuilt(p, r, frame, Request, faithful);
      RequestStage(p, r, frame, faithful);
    } else {
      assert q == p;
    }
  }

  lemma RequestStage(p: Pair, r: Reply, frame: Frame, faithful: bool)
    requires Stage(p, faithful) && r.status == Ok && p.near.phase == Disconnected
    requires r.session == Cleared(p.near).(phase := AwaitingConnection)
    ensures Stage(Built(p, r, frame, Request), faithful)
  {
    var q, packet := Built(p, r, frame, Request), Packet(r.output, frame, Request);
    if Unconnected(p, faithful) {
      assert q.out.wire == [packet] && [packet][1..] == [];
      assert Requested(q, faithful);
    } else {
      LineSend(p.out.wire, 1, 3, packet);
      assert Gone(q);
    }
  }

  /** The server's side of a pending request: nothing is on either line. */
  lemma PendingStage(p: Pair, faithful: bool)
    requires Stage(p, faithful) && Consistent(p.far) && p.far.connectPending
    ensures Requested(p, faithful) && Settled(p) && p.out.wire == [] && p.back.wire == []
  {
  }

  lemma AnswerInv(p: Pair, faithful: bool)
    requires Inv(p, faithful)
    ensures Inv(Flip(AnswerStep(Flip(p))), faithful)
  {
    var s := p.far;
    var frame := FrameTo(ApplyAnswer(s).options, UA, AnswerInformation(s));
    ConnectResponseBuilt(s);
    ConnectResponseKeeps(s);
    AnswerStepBuilds(p);
    ResponseProper(s, BuildConnectResponse(s).output);
    AnswerInvFor(p, BuildConnectResponse(s), frame, faithful);
  }

  lemma AnswerStepBuilds(p: Pair)
    ensures var r := BuildConnectResponse(p.far);
      Flip(AnswerStep(Flip(p))) ==
        Flip(Built(if r.status == Ok then Opened(Flip(p)) else Flip(p), r,
                   FrameTo(ApplyAnswer(p.far).options, UA, AnswerInformation(p.far)), Response))
  {
  }

  /** The answer, given what it looks like. */
  lemma AnswerInvFor(p: Pair, r: Reply, frame: Frame, faithful: bool)
    requires Inv(p, faithful)
    requires Bounded(r.session) && Consistent(r.session) && SameEndpoint(p.far, r.session)
    requires r.session.disconnectPending == p.far.disconnectPending
    requires frame.destination == Remote(p.far.options) && frame.source == Local(p.far.options) && frame.control == UA
    requires ProperResponse(Packet(r.output, frame, Response))
    requires if r.status == Ok then
        p.far.connectPending && Printable(frame) && r.output == Wire(frame) && r.session.phase == Connected
        && r.session.vs == 0 && r.session.vr == 0 && r.session.va == 0
      else SameProgress(p.far, r.session) && r.session.connectPending == p.far.connectPending
           && (r.session == p.far || p.far.connectPending)
    ensures Inv(Flip(Built(if r.status == Ok then Opened(Flip(p)) else Flip(p), r, frame, Response)), faithful)
  {
    if r.status == Ok {
      AnsweredInv(p, r, frame, faithful);
    } else {
      UnansweredInv(p, r, frame, faithful);
    }
  }

  lemma UnansweredInv(p: Pair, r: Reply, frame: Frame, faithful: bool)
    requires Inv(p, faithful) && r.status != Ok
    requires Bounded(r.session) && Consistent(r.session) && SameEndpoint(p.far, r.session)
    requires SameProgress(p.far, r.session) && r.session.connectPending == p.far.connectPending
    requires r.session.disconnectPending == p.far.disconnectPending
    requires r.session == p.far || p.far.connectPending
    ensures Inv(Flip(Built(Flip(p), r, frame, Response)), faithful)
  {
    var q := Flip(Built(Flip(p), r, frame, Response));
    assert q == p.(far := r.session);
    if p.far.connectPending {
      PendingStage(p, faithful);
      BaseMoved(p, q, faithful);
      assert Requested(q, faithful);
    } else {
      assert q == p;
    }
  }

  /** An answer that was built opens a new connection with empty books. */
  lemma AnsweredInv(p: Pair, r: Reply, frame: Frame, faithful: bool)
    requires Inv(p, faithful) && r.status == Ok && p.far.connectPending
    requires Bounded(r.session) && Consistent(r.session) && SameEndpoint(p.far, r.session)
    requires r.session.phase == Connected && r.session.vs == 0 && r.session.vr == 0 && r.session.va == 0
    requires r.session.disconnectPending == p.far.disconnectPending
    requires frame.destination == Remote(p.far.options) && frame.source == Local(p.far.options) && frame.control == UA
    requires Printable(frame) && r.output == Wire(frame) && ProperResponse(Packet(r.output, frame, Response))
    ensures Inv(Flip(Built(Opened(Flip(p)), r, frame, Response)), faithful)
  {
    PendingStage(p, faithful);
    var o := Opened(Flip(p));
    BaseOpened(p, faithful);
    BaseBuiltByServer(Flip(o), r, frame, Response, faithful);
    AnsweredStage(p, r, frame, faithful);
  }

  lemma BaseOpened(p: Pair, faithful: bool)
    requires Base(p, faithful) && Settled(p)
    ensures Base(Flip(Opened(Flip(p))), faithful)
  {
  }

  lemma AnsweredStage(p: Pair, r: Reply, frame: Frame, faithful: bool)
    requires Requested(p, faithful) && p.out.wire == [] && p.back.wire == [] && r.status == Ok
    requires p.near.vs == 0 && p.near.vr == 0 && p.near.va == 0 && Bounded(p.near)
    requires r.session.phase == Connected && r.session.vs == 0 && r.session.vr == 0 && r.session.va == 0 && Bounded(r.session)
    requires !r.session.disconnectPending
    ensures Stage(Flip(Built(Opened(Flip(p)), r, frame, Response)), faithful)
  {
    var q, packet := Flip(Built(Opened(Flip(p)), r, frame, Response)), Packet(r.output, frame, Response);
    assert q.back.wire == [packet] && q.out.wire == [] && [packet][1..] == [];
    assert Responded(q, faithful);
    assert Flows(q, faithful);
  }

  // ----- Sending

  /** A numbered packet that was built, by the client. */
  lemma NumberedInv(p: Pair, r: Reply, frame: Frame, meaning: Meaning, faithful: bool)
    requires Inv(p, faithful) && (meaning.Data? || meaning.Ready?)
    requires if r.status == Ok then
        p.near.phase == Connected && Current(p, meaning)
        && Genuine(Packet(r.output, frame, meaning), p.near.options) && Truthful(Packet(r.output, frame, meaning))
        && (if meaning.Data? then CanSend(p.near) && r.session == p.near.(vs := NextSequence(p.near.vs))
            else r.session == p.near)
      else r.session == p.near
    ensures Inv(Built(p, r, frame, meaning), faithful)
  {
    var q := Built(p, r, frame, meaning);
    if r.status == Ok {
      CountersReplace(p.near, r.session.vs, r.session.vr, r.session.va);
      BaseBuilt(p, r, frame, meaning, faithful);
      UpStage(p, faithful);
      BuiltKeeps(p, r, frame, meaning, faithful);
      LineSend(p.out.wire, 1, 1, Packet(r.output, frame, meaning));
      StaysUp(p, q, faithful);
    } else {
      assert q == p;
    }
  }

  lemma UpStage(p: Pair, faithful: bool)
    requires Stage(p, faithful)
    ensures p.near.phase == Connected ==> Up(p, faithful) && Flows(p, faithful)
    ensures p.far.phase == Connected ==> Running(p, faithful) && Flows(p, faithful)
  {
  }

  lemma StaysUp(p: Pair, q: Pair, faithful: bool)
    requires Up(p, faithful) && q.far == p.far && q.back.wire == p.back.wire && Line(q.out.wire, 1, 1)
    requires q.near == p.near.(vs := q.near.vs)
    ensures Up(q, faithful)
  {
  }

  /** The same by the server. */
  lemma NumberedInvByServer(p: Pair, r: Reply, frame: Frame, meaning: Meaning, faithful: bool)
    requires Inv(p, faithful) && (meaning.Data? || meaning.Ready?)
    requires if r.status == Ok then
        p.far.phase == Connected && Current(Flip(p), meaning)
        && Genuine(Packet(r.output, frame, meaning), p.far.options) && Truthful(Packet(r.output, frame, meaning))
        && (if meaning.Data? then CanSend(p.far) && r.session == p.far.(vs := NextSequence(p.far.vs))
            else r.session == p.far)
      else r.session == p.far
    ensures Inv(Flip(Built(Flip(p), r, frame, meaning)), faithful)
  {
    var q := Flip(Built(Flip(p), r, frame, meaning));
    if r.status == Ok {
      CountersReplace(p.far, r.session.vs, r.session.vr, r.session.va);
      BaseBuiltByServer(p, r, frame, meaning, faithful);
      UpStage(p, faithful);
      FlipFlows(p, faithful);
      BuiltKeeps(Flip(p), r, frame, meaning, faithful);
      FlipFlows(q, faithful);
      ServerLine(p, q, Packet(r.output, frame, meaning), faithful);
    } else {
      assert q == p;
    }
  }

  lemma ServerLine(p: Pair, q: Pair, packet: Packet, faithful: bool)
    requires Running(p, faithful) && p.far.phase == Connected && Numbered(packet)
    requires q.near == p.near && q.out.wire == p.out.wire && q.out.sent == p.out.sent
    requires q.back.wire == p.back.wire + [packet] && q.far == p.far.(vs := q.far.vs)
    ensures Running(q, faithful)
  {
    if Responded(p, faithful) {
      LineSend(p.back.wire, 0, 1, packet);
      assert Responded(q, faithful);
    } else {
      LineSend(p.back.wire, 1, 1, packet);
      assert Up(p, faithful) ==> Up(q, faithful);
      assert Leaving(p) ==> Leaving(q);
    }
  }

  lemma SendInv(p: Pair, byClient: bool, payload: seq<Byte>, pollFinal: bool, faithful: bool)
    requires Inv(p, faithful)
    ensures Inv(if byClient then SendStep(p, payload, pollFinal) else Flip(SendStep(Flip(p), payload, pollFinal)), faithful)
  {
    var v := if byClient then p else Flip(p);
    var r := BuildInformation(v.near, payload, pollFinal);
    var frame := FrameTo(v.near.options, InformationControl(v.near.vs, v.near.vr, pollFinal), payload);
    var meaning := Data(|v.out.sent|, payload, |v.back.delivered|);
    InformationBuilt(v.near, payload, pollFinal);
    InformationFields(v.near.vs, v.near.vr, pollFinal);
    UpNumbers(p, faithful);
    if byClient {
      NumberedInv(p, r, frame, meaning, faithful);
    } else {
      NumberedInvByServer(p, r, frame, meaning, faithful);
    }
  }

  /** The counters of an end that is up stand for its counts. */
  lemma UpNumbers(p: Pair, faithful: bool)
    requires Inv(p, faithful)
    ensures p.near.phase == Connected || p.far.phase == Connected ==> Flows(p, faithful)
    ensures p.near.phase == Connected ==> p.near.vs == |p.out.sent| % 8 && p.near.vr == |p.back.delivered| % 8
    ensures p.far.phase == Connected ==> p.far.vs == |p.back.sent| % 8 && p.far.vr == |p.out.delivered| % 8
  {
  }

  lemma AcknowledgeInv(p: Pair, byClient: bool, pollFinal: bool, faithful: bool)
    requires Inv(p, faithful)
    ensures Inv(if byClient then AcknowledgeStep(p, pollFinal) else Flip(AcknowledgeStep(Flip(p), pollFinal)), faithful)
  {
    var v := if byClient then p else Flip(p);
    var r := BuildReceiveReady(v.near, pollFinal);
    var frame := FrameTo(v.near.options, ReceiveReadyControl(v.near.vr, pollFinal), []);
    var meaning := Ready(|v.back.delivered|);
    ReceiveReadyBuilt(v.near, pollFinal);
    ReceiveReadyFields(v.near.vr, pollFinal);
    UpNumbers(p, faithful);
    if byClient {
      NumberedInv(p, r, frame, meaning, faithful);
    } else {
      NumberedInvByServer(p, r, frame, meaning, faithful);
    }
  }

  // ----- Disconnecting

  lemma DisconnectInv(p: Pair, byClient: bool, user: seq<Byte>)
    requires Inv(p, false)
    ensures Inv(if byClient then DisconnectStep(p, user) else Flip(DisconnectStep(Flip(p), user)), false)
  {
    var v := if byClient then p else Flip(p);
    DisconnectRequestBuilt(v.near, user);
    DisconnectRequestKeeps(v.near, user);
    if byClient {
      FarewellInv(p, BuildDisconnectRequest(p.near, user), FrameTo(p.near.options, DISC, user));
    } else {
      FarewellInvByServer(p, BuildDisconnectRequest(p.far, user), FrameTo(p.far.options, DISC, user));
    }
  }

  lemma FarewellInv(p: Pair, r: Reply, frame: Frame)
    requires Inv(p, false)
    requires frame.destination == Remote(p.near.options) && frame.source == Local(p.near.options) && frame.control == DISC
    requires if r.status == Ok then
        p.near.phase == Connected && r.session == p.near.(phase := AwaitingDisconnect)
        && Printable(frame) && r.output == Wire(frame)
      else r.session == p.near
    requires Consistent(r.session)
    ensures Inv(Built(p, r, frame, Farewell), false)
  {
    var q := Built(p, r, frame, Farewell);
    if r.status == Ok {
      BaseBuilt(p, r, frame, Farewell, false);
      UpStage(p, false);
      OtherKeeps(p, r, frame, Farewell, false);
      LineSend(p.out.wire, 1, 1, Packet(r.output, frame, Farewell));
      Leaves(p, q);
    } else {
      assert q == p;
    }
  }

  lemma Leaves(p: Pair, q: Pair)
    requires Up(p, false) && q.far == p.far && q.back.wire == p.back.wire && Line(q.out.wire, 1, 2)
    requires q.near == p.near.(phase := AwaitingDisconnect)
    ensures Leaving(q)
  {
  }

  lemma FarewellInvByServer(p: Pair, r: Reply, frame: Frame)
    requires Inv(p, false)
    requires frame.destination == Remote(p.far.options) && frame.source == Local(p.far.options) && frame.control == DISC
    requires if r.status == Ok then
        p.far.phase == Connected && r.session == p.far.(phase := AwaitingDisconnect)
        && Printable(frame) && r.output == Wire(frame)
      else r.session == p.far
    requires Consistent(r.session)
    ensures Inv(Flip(Built(Flip(p), r, frame, Farewell)), false)
  {
    var q := Flip(Built(Flip(p), r, frame, Farewell));
    if r.status == Ok {
      BaseBuiltByServer(p, r, frame, Farewell, false);
      UpStage(p, false);
      FlipFlows(p, false);
      OtherKeeps(Flip(p), r, frame, Farewell, false);
      FlipFlows(q, false);
      FarewellLine(p, q, Packet(r.output, frame, Farewell));
    } else {
      assert q == p;
    }
  }

  lemma FarewellLine(p: Pair, q: Pair, packet: Packet)
    requires Running(p, false) && p.far.phase == Connected && packet.meaning.Farewell?
    requires q.near == p.near && q.out == p.out
    requires q.back.wire == p.back.wire + [packet] && q.far == p.far.(phase := AwaitingDisconnect)
    ensures Running(q, false)
  {
    if Responded(p, false) {
      LineSend(p.back.wire, 0, 1, packet);
      assert Responded(q, false);
    } else {
      LineSend(p.back.wire, 1, 1, packet);
      assert Up(p, false) ==> Up(q, false);
      assert Leaving(p) ==> Leaving(q);
    }
  }

  lemma ReleaseInv(p: Pair, byClient: bool)
    requires Inv(p, false)
    ensures Inv(if byClient then ReleaseStep(p) else Flip(ReleaseStep(Flip(p))), false)
  {
    var v := if byClient then p else Flip(p);
    DisconnectResponseBuilt(v.near);
    DisconnectResponseKeeps(v.near);
    if byClient {
      ReleasedInv(p, BuildDisconnectResponse(p.near), FrameTo(p.near.options, UA, []));
    } else {
      ReleasedInvByServer(p, BuildDisconnectResponse(p.far), FrameTo(p.far.options, UA, []));
    }
  }

  lemma ReleasedInv(p: Pair, r: Reply, frame: Frame)
    requires Inv(p, false)
    requires frame.destination == Remote(p.near.options) && frame.source == Local(p.near.options) && frame.control == UA
    requires if r.status == Ok then
        p.near.disconnectPending && r.session == Cleared(p.near).(phase := Disconnected, disconnectPending := false)
        && Printable(frame) && r.output == Wire(frame)
      else r.session == p.near
    requires Consistent(r.session)
    ensures Inv(Built(p, r, frame, Release), false)
  {
    var q := Built(p, r, frame, Release);
    if r.status == Ok {
      BaseBuilt(p, r, frame, Release, false);
      ClientReleases(p, q, Packet(r.output, frame, Release));
    } else {
      assert q == p;
    }
  }

  lemma ClientReleases(p: Pair, q: Pair, packet: Packet)
    requires Stage(p, false) && p.near.disconnectPending && packet.meaning.Release?
    requires q.far == p.far && q.back == p.back && q.out == p.out.(wire := p.out.wire + [packet])
    requires q.near == Cleared(p.near).(phase := Disconnected, disconnectPending := false)
    ensures Stage(q, false)
  {
    FlowsSettled(p, false);
    LineWiden(p.out.wire, 1, if Up(p, false) then 1 else 2, 1, 2);
    LineSend(p.out.wire, 1, 2, packet);
    assert Gone(q);
  }

  lemma ReleasedInvByServer(p: Pair, r: Reply, frame: Frame)
    requires Inv(p, false)
    requires frame.destination == Remote(p.far.options) && frame.source == Local(p.far.options) && frame.control == UA
    requires if r.status == Ok then
        p.far.disconnectPending && r.session == Cleared(p.far).(phase := Disconnected, disconnectPending := false)
        && Printable(frame) && r.output == Wire(frame)
      else r.session == p.far
    requires Consistent(r.session)
    ensures Inv(Flip(Built(Flip(p), r, frame, Release)), false)
  {
    var q := Flip(Built(Flip(p), r, frame, Release));
    if r.status == Ok {
      BaseBuiltByServer(p, r, frame, Release, false);
      ServerReleases(p, q, Packet(r.output, frame, Release));
    } else {
      assert q == p;
    }
  }

  lemma ServerReleases(p: Pair, q: Pair, packet: Packet)
    requires Stage(p, false) && p.far.disconnectPending && packet.meaning.Release?
    requires Consistent(p.far) && q.near == p.near && q.out == p.out && q.back == p.back.(wire := p.back.wire + [packet])
    requires q.far == Cleared(p.far).(phase := Disconnected, disconnectPending := false)
    ensures Stage(q, false)
  {
    FlowsSettled(p, false);
    LineWiden(p.back.wire, 1, Sent(p), 1, 2);
    LineSend(p.back.wire, 1, 2, packet);
    assert Released(q);
  }

  // ----- Losses

  lemma BaseLose(p: Pair, i: nat)
    requires Base(p, false) && i < |p.out.wire|
    ensures Base(LoseStep(p, i), false)
  {
    AllHonestLose(p.out.wire, i, p.near.options);
  }

  lemma BaseLoseFromServer(p: Pair, i: nat)
    requires Base(p, false) && i < |p.back.wire|
    ensures Base(Flip(LoseStep(Flip(p), i)), false)
  {
    AllHonestLose(p.back.wire, i, p.far.options);
  }

  lemma LoseFromClient(p: Pair, i: nat)
    requires Inv(p, false) && i < |p.out.wire|
    ensures Inv(LoseStep(p, i), false)
  {
    BaseLose(p, i);
    ClientLoses(p, i);
  }

  lemma ClientLoses(p: Pair, i: nat)
    requires Stage(p, false) && i < |p.out.wire|
    ensures Stage(LoseStep(p, i), false)
  {
    var q := LoseStep(p, i);
    if Running(p, false) && Flows(p, false) {
      LoseFlows(p, i);
      LineLose(p.out.wire, i, 1, if Up(p, false) then 1 else 2);
      assert Up(p, false) ==> Up(q, false);
      assert Leaving(p) ==> Leaving(q);
    } else if Requested(p, false) {
      LineLose(p.out.wire, i, 4, 4);
      assert Requested(q, false);
    } else {
      LineLose(p.out.wire, i, 1, if p.near.phase == Disconnected then 3 else 4);
      assert Gone(q);
    }
  }

  lemma LoseFromServer(p: Pair, i: nat)
    requires Inv(p, false) && i < |p.back.wire|
    ensures Inv(Flip(LoseStep(Flip(p), i)), false)
  {
    BaseLoseFromServer(p, i);
    ServerLoses(p, i);
  }

  lemma ServerLoses(p: Pair, i: nat)
    requires Stage(p, false) && i < |p.back.wire|
    ensures Stage(Flip(LoseStep(Flip(p), i)), false)
  {
    var q := Flip(LoseStep(Flip(p), i));
    if Running(p, false) && Flows(p, false) {
      FlipFlows(p, false);
      LoseFlows(Flip(p), i);
      FlipFlows(q, false);
      LineLose(p.back.wire, i, if Responded(p, false) then 0 else 1, Sent(p));
      assert Responded(p, false) ==> Responded(q, false);
      assert Up(p, false) ==> Up(q, false);
      assert Leaving(p) ==> Leaving(q);
    } else {
      LineLose(p.back.wire, i, 1, 3);
      assert Released(q);
    }
  }

  // ----- Arrivals

  /** What was not understood or was refused is as good as lost. */
  lemma DropAtClient(p: Pair, arrival: Option<Reply>)
    requires Inv(p, false) && p.back.wire != []
    requires arrival.None? || (arrival.value.status != Ok && arrival.value.session == p.near)
    ensures Inv(Heard(p, arrival), false)
  {
    LoseFromServer(p, 0);
    assert p.back.wire[..0] + p.back.wire[1..] == p.back.wire[1..];
    assert Heard(p, arrival) == Flip(LoseStep(Flip(p), 0));
  }

  lemma DropAtServer(p: Pair, arrival: Option<Reply>)
    requires Inv(p, false) && p.out.wire != []
    requires arrival.None? || (arrival.value.status != Ok && arrival.value.session == p.far)
    ensures Inv(Flip(Heard(Flip(p), arrival)), false)
  {
    LoseFromClient(p, 0);
    assert p.out.wire[..0] + p.out.wire[1..] == p.out.wire[1..];
    assert Flip(Heard(Flip(p), arrival)) == LoseStep(p, 0);
  }

  /** A packet without a number changes the session that hears it and leaves the line. */
  lemma HeardOther(p: Pair, r: Reply)
    ensures p.back.wire != [] && !Numbered(p.back.wire[0]) ==>
      Heard(p, Some(r)) == p.(near := r.session, back := TakeOff(p.back))
    ensures p.out.wire != [] && !Numbered(p.out.wire[0]) ==>
      Flip(Heard(Flip(p), Some(r))) == p.(far := r.session, out := TakeOff(p.out))
  {
  }

  /** A numbered packet changes no more than counters. */
  lemma HeardSession(p: Pair, arrival: Option<Reply>, faithful: bool)
    requires Flows(p, faithful) && Honest(p) && Peers(p) && NumberedFirst(p.back.wire) && p.near.phase == Connected
    requires arrival.None? || arrival == Some(Receive(p.near, p.back.wire[0].frame))
    ensures var h := Heard(p, arrival);
      && h.far == p.far && h.rx == p.rx && h.past == p.past
      && h.out.wire == p.out.wire && h.out.sent == p.out.sent && h.back.wire == p.back.wire[1..]
      && h.near == p.near.(va := h.near.va, vr := h.near.vr)
  {
    NumberedArrival(p, faithful);
  }

  /** A numbered packet at a client that is up. */
  lemma NumberedAtClient(p: Pair, arrival: Option<Reply>, faithful: bool)
    requires Inv(p, faithful) && Up(p, faithful) && NumberedFirst(p.back.wire)
    requires arrival.None? || arrival == Some(Receive(p.near, p.back.wire[0].frame))
    requires faithful ==> arrival.Some?
    ensures Inv(Heard(p, arrival), faithful)
    ensures faithful ==> arrival.value.status == Ok
  {
    var h := Heard(p, arrival);
    UpStage(p, faithful);
    HeardKeeps(p, arrival, faithful);
    HeardSession(p, arrival, faithful);
    CountersReplace(p.near, h.near.vs, h.near.vr, h.near.va);
    BaseMoved(p, h, faithful);
    UpAdvances(p, h, faithful);
  }

  lemma UpAdvances(p: Pair, h: Pair, faithful: bool)
    requires Up(p, faithful) && p.back.wire != [] && NumberedFirst(p.back.wire)
    requires h.far == p.far && h.out.wire == p.out.wire && h.back.wire == p.back.wire[1..]
    requires h.near == p.near.(va := h.near.va, vr := h.near.vr)
    ensures Up(h, faithful)
  {
  }

  /** A numbered packet at a server that is up. */
  lemma NumberedAtServer(p: Pair, arrival: Option<Reply>, faithful: bool)
    requires Inv(p, faithful) && Running(p, faithful) && Flows(p, faithful) && p.far.phase == Connected
    requires NumberedFirst(p.out.wire)
    requires arrival.None? || arrival == Some(Receive(p.far, p.out.wire[0].frame))
    requires faithful ==> arrival.Some?
    ensures Inv(Flip(Heard(Flip(p), arrival)), faithful)
    ensures faithful ==> arrival.value.status == Ok
  {
    var h := Flip(Heard(Flip(p), arrival));
    FlipFlows(p, faithful);
    HeardKeeps(Flip(p), arrival, faithful);
    HeardSession(Flip(p), arrival, faithful);
    FlipFlows(h, faithful);
    CountersReplace(p.far, h.far.vs, h.far.vr, h.far.va);
    BaseMoved(p, h, faithful);
    ServerAdvances(p, h, faithful);
  }

  lemma ServerAdvances(p: Pair, h: Pair, faithful: bool)
    requires Running(p, faithful) && p.far.phase == Connected && NumberedFirst(p.out.wire)
    requires h.near == p.near && h.back.wire == p.back.wire && h.out.wire == p.out.wire[1..]
    requires h.far == p.far.(va := h.far.va, vr := h.far.vr)
    ensures Running(h, faithful)
  {
    assert Up(p, faithful) ==> Up(h, faithful);
    assert Leaving(p) ==> Leaving(h);
  }

  /** The client joins the connection. */
  lemma ResponseAtClient(p: Pair, r: Reply, faithful: bool)
    requires Inv(p, faithful) && p.back.wire != [] && p.back.wire[0].meaning.Response?
    requires r == Receive(p.near, p.back.wire[0].frame)
    ensures r.status == Ok && Inv(Heard(p, Some(r)), faithful)
  {
    HeadOfBack(p, faithful);
    ResponseStage(p, faithful);
    ResponseAccepted(p.near, p.back.wire[0]);
    HeardOther(p, r);
    Joins(p, r.session, faithful);
  }

  lemma Joins(p: Pair, near: Session, faithful: bool)
    requires Base(p, faithful) && p.back.wire != [] && p.back.wire[0].meaning.Response?
    requires Responded(p, faithful) && Flows(p, faithful) && Line(p.back.wire[1..], 1, Sent(p))
    requires Replaces(p.near, near) && near.phase == Connected && near.disconnectPending == p.near.disconnectPending
    requires near.vs == 0 && near.vr == 0 && near.va == 0
    ensures Inv(p.(near := near, back := TakeOff(p.back)), faithful)
  {
    var h := p.(near := near, back := TakeOff(p.back));
    RefusedKeeps(p, faithful);
    Rejoined(p.(back := TakeOff(p.back)), near, faithful);
    BaseMoved(p, h, faithful);
    JoinedUp(p, h, faithful);
  }

  lemma JoinedUp(p: Pair, h: Pair, faithful: bool)
    requires Responded(p, faithful) && h.far == p.far && h.out == p.out && p.back.wire != []
    requires h.back.wire == p.back.wire[1..] && Line(h.back.wire, 1, Sent(p))
    requires h.near.phase == Connected && h.near.disconnectPending == p.near.disconnectPending
    ensures Up(h, faithful)
  {
  }

  lemma ResponseStage(p: Pair, faithful: bool)
    requires Stage(p, faithful) && p.back.wire != [] && p.back.wire[0].meaning.Response?
    ensures Responded(p, faithful) && Flows(p, faithful) && Line(p.back.wire[1..], 1, Sent(p))
  {
  }

  /** What the ends know about the first packet on their line. */
  lemma HeadOfBack(p: Pair, faithful: bool)
    requires Base(p, faithful) && p.back.wire != []
    ensures var packet := p.back.wire[0];
      && Genuine(packet, p.far.options) && Truthful(packet) && FromPeer(p.near, packet.frame)
      && (packet.meaning.Response? ==> ProperResponse(packet))
  {
  }

  lemma HeadOfOut(p: Pair, faithful: bool)
    requires Base(p, faithful) && p.out.wire != []
    ensures var packet := p.out.wire[0];
      && Genuine(packet, p.near.options) && Truthful(packet) && FromPeer(p.far, packet.frame)
      && (packet.meaning.Request? ==> ProperRequest(packet, p.near.options.capability))
  {
  }

  /** Joining changes the client's window, but it has sent nothing yet. */
  lemma Rejoined(p: Pair, near: Session, faithful: bool)
    requires Flows(p, faithful) && p.out.sent == [] && WindowRange(near.window)
    requires p.near.vs == 0 && p.near.vr == 0 && p.near.va == 0 && near.vs == 0 && near.vr == 0 && near.va == 0
    ensures Flows(p.(near := near), faithful)
  {
  }

  /** The client learns that the server leaves. */
  lemma FarewellAtClient(p: Pair, r: Reply)
    requires Inv(p, false) && Up(p, false) && p.back.wire != [] && p.back.wire[0].meaning.Farewell?
    requires r == Receive(p.near, p.back.wire[0].frame)
    ensures Inv(Heard(p, Some(r)), false)
  {
    HeadOfBack(p, false);
    FarewellAccepted(p.near, p.back.wire[0].frame);
    HeardOther(p, r);
    ClientIsLeft(p, r.session);
  }

  /** A session that owes a release. */
  predicate Owes(x: Session, y: Session) {
    y == x.(userInformation := y.userInformation, disconnectPending := true)
  }

  lemma ClientIsLeft(p: Pair, near: Session)
    requires Inv(p, false) && Up(p, false) && p.back.wire != [] && p.back.wire[0].meaning.Farewell?
    requires Owes(p.near, near)
    ensures Inv(p.(near := near, back := TakeOff(p.back)), false)
  {
    var h := p.(near := near, back := TakeOff(p.back));
    UpStage(p, false);
    RefusedKeeps(p, false);
    LineEmpty(p.back.wire[1..], 3, Sent(p));
    FlowsElsewhere(p.(back := TakeOff(p.back)), h, false);
    BaseMoved(p, h, false);
    assert Up(h, false);
  }

  /** The server learns that the client leaves. */
  lemma FarewellAtServer(p: Pair, r: Reply)
    requires Inv(p, false) && Leaving(p) && Flows(p, false) && p.far.phase == Connected
    requires p.out.wire != [] && p.out.wire[0].meaning.Farewell?
    requires r == Receive(p.far, p.out.wire[0].frame)
    ensures Inv(Flip(Heard(Flip(p), Some(r))), false)
  {
    HeadOfOut(p, false);
    FarewellAccepted(p.far, p.out.wire[0].frame);
    HeardOther(p, r);
    ServerIsLeft(p, r.session);
  }

  lemma ServerIsLeft(p: Pair, far: Session)
    requires Base(p, false) && Leaving(p) && Flows(p, false) && p.far.phase == Connected
    requires p.out.wire != [] && p.out.wire[0].meaning.Farewell? && Owes(p.far, far)
    ensures Inv(p.(far := far, out := TakeOff(p.out)), false)
  {
    var h := p.(far := far, out := TakeOff(p.out));
    FlipFlows(p, false);
    RefusedKeeps(Flip(p), false);
    LineEmpty(p.out.wire[1..], 3, 2);
    FlowsElsewhere(Flip(p).(back := TakeOff(p.out)), Flip(h), false);
    FlipFlows(h, false);
    BaseMoved(p, h, false);
    ServerOwes(p, h);
  }

  lemma ServerOwes(p: Pair, h: Pair)
    requires Leaving(p) && p.far.phase == Connected && Owes(p.far, h.far)
    requires h.near == p.near && h.back == p.back && h.out.wire == []
    ensures Leaving(h)
  {
  }

  /** The client learns that it is released. */
  lemma ReleaseAtClient(p: Pair, r: Reply)
    requires Inv(p, false) && p.back.wire != [] && p.back.wire[0].meaning.Release?
    requires r == Receive(p.near, p.back.wire[0].frame)
    ensures Inv(Heard(p, Some(r)), false)
  {
    HeadOfBack(p, false);
    ReleasedStage(p);
    ReleaseAccepted(p.near, p.back.wire[0].frame);
    HeardOther(p, r);
    ClientIsReleased(p, r.session);
  }

  lemma ClientIsReleased(p: Pair, near: Session)
    requires Base(p, false) && Released(p) && Settled(p) && p.back.wire != [] && p.back.wire[1..] == []
    requires near == Cleared(p.near).(phase := Disconnected)
    ensures Inv(p.(near := near, back := TakeOff(p.back)), false)
  {
    var h := p.(near := near, back := TakeOff(p.back));
    BaseMoved(p, h, false);
    assert Unconnected(h, false);
  }

  lemma ReleasedStage(p: Pair)
    requires Stage(p, false)
    ensures p.back.wire != [] && p.back.wire[0].meaning.Release? ==> Released(p) && Settled(p) && p.back.wire[1..] == []
    ensures p.out.wire != [] && p.out.wire[0].meaning.Release? ==>
      (&& Gone(p) && Settled(p)
       && (if p.near.phase == Disconnected then p.out.wire[1..] == [] else Line(p.out.wire[1..], 4, 4)))
  {
    if p.back.wire != [] && p.back.wire[0].meaning.Release? {
      LineEmpty(p.back.wire[1..], 4, 3);
    }
    if p.out.wire != [] && p.out.wire[0].meaning.Release? && p.near.phase == Disconnected {
      LineEmpty(p.out.wire[1..], 4, 3);
    }
  }

  /** The server learns that it is released. */
  lemma ReleaseAtServer(p: Pair, r: Reply)
    requires Inv(p, false) && p.out.wire != [] && p.out.wire[0].meaning.Release?
    requires r == Receive(p.far, p.out.wire[0].frame)
    ensures Inv(Flip(Heard(Flip(p), Some(r))), false)
  {
    HeadOfOut(p, false);
    ReleasedStage(p);
    ReleaseAccepted(p.far, p.out.wire[0].frame);
    HeardOther(p, r);
    ServerIsReleased(p, r.session);
  }

  lemma ServerIsReleased(p: Pair, far: Session)
    requires Base(p, false) && Gone(p) && Settled(p) && p.out.wire != []
    requires if p.near.phase == Disconnected then p.out.wire[1..] == [] else Line(p.out.wire[1..], 4, 4)
    requires far == Cleared(p.far).(phase := Disconnected)
    ensures Inv(p.(far := far, out := TakeOff(p.out)), false)
  {
    var h := p.(far := far, out := TakeOff(p.out));
    BaseMoved(p, h, false);
    assert Unconnected(h, false) || Requested(h, false);
  }

  /** The server hears a request for a connection. */
  lemma RequestAtServer(p: Pair, r: Reply, faithful: bool)
    requires Inv(p, faithful) && Requested(p, faithful) && p.out.wire != []
    requires r == Receive(p.far, p.out.wire[0].frame)
    ensures r.status == Ok && Inv(Flip(Heard(Flip(p), Some(r))), faithful)
  {
    HeadOfOut(p, faithful);
    RequestTaken(p.far, p.out.wire[0], p.near.options.capability);
    HeardOther(p, r);
    IsAsked(p, r, faithful);
  }

  lemma IsAsked(p: Pair, r: Reply, faithful: bool)
    requires Inv(p, faithful) && Requested(p, faithful) && p.out.wire != [] && Asked(p.far, r)
    ensures Inv(p.(far := r.session, out := TakeOff(p.out)), faithful)
  {
    var h := p.(far := r.session, out := TakeOff(p.out));
    LineEmpty(p.out.wire[1..], 5, 4);
    BaseMoved(p, h, faithful);
    assert Requested(h, faithful);
  }

  /** The first packet for the client, in any stage. */
  lemma AtClient(p: Pair, arrival: Option<Reply>, faithful: bool)
    requires Inv(p, faithful) && p.back.wire != []
    requires arrival.None? || arrival == Some(Receive(p.near, p.back.wire[0].frame))
    requires faithful ==> arrival.Some?
    ensures Inv(Heard(p, arrival), faithful)
    ensures faithful ==> arrival.value.status == Ok
  {
    if arrival.None? {
      DropAtClient(p, arrival);
    } else if p.back.wire[0].meaning.Response? {
      ResponseAtClient(p, arrival.value, faithful);
    } else if p.near.phase != Connected {
      ClientIsUp(p, faithful);
      AtClientDown(p, arrival.value);
    } else {
      AtClientUp(p, arrival, faithful);
    }
  }

  /** On faithful lines the client hears nothing but the response before it is up. */
  lemma ClientIsUp(p: Pair, faithful: bool)
    requires Stage(p, faithful) && p.back.wire != [] && !p.back.wire[0].meaning.Response? && p.near.phase != Connected
    ensures !faithful
  {
  }

  lemma AtClientDown(p: Pair, r: Reply)
    requires Inv(p, false) && p.back.wire != [] && !p.back.wire[0].meaning.Response? && p.near.phase != Connected
    requires r == Receive(p.near, p.back.wire[0].frame)
    ensures Inv(Heard(p, Some(r)), false)
  {
    HeadOfBack(p, false);
    if p.back.wire[0].meaning.Release? {
      ReleaseAtClient(p, r);
    } else {
      assert !p.back.wire[0].meaning.Request?;
      Refuses(p.near, p.back.wire[0]);
      DropAtClient(p, Some(r));
    }
  }

  lemma AtClientUp(p: Pair, arrival: Option<Reply>, faithful: bool)
    requires Inv(p, faithful) && p.back.wire != [] && p.near.phase == Connected
    requires arrival == Some(Receive(p.near, p.back.wire[0].frame))
    ensures Inv(Heard(p, arrival), faithful)
    ensures faithful ==> arrival.value.status == Ok
  {
    UpStage(p, faithful);
    if p.back.wire[0].meaning.Farewell? {
      FarewellAtClient(p, arrival.value);
    } else {
      NumberedAtClient(p, arrival, faithful);
    }
  }

  /** The first packet for the server, in any stage. */
  lemma AtServer(p: Pair, arrival: Option<Reply>, faithful: bool)
    requires Inv(p, faithful) && p.out.wire != []
    requires arrival.None? || arrival == Some(Receive(p.far, p.out.wire[0].frame))
    requires faithful ==> arrival.Some?
    ensures Inv(Flip(Heard(Flip(p), arrival)), faithful)
    ensures faithful ==> arrival.value.status == Ok
  {
    if arrival.None? {
      DropAtServer(p, arrival);
    } else if Requested(p, faithful) {
      RequestAtServer(p, arrival.value, faithful);
    } else if p.far.phase != Connected {
      AtServerDown(p, arrival.value);
    } else {
      AtServerUp(p, arrival, faithful);
    }
  }

  lemma AtServerDown(p: Pair, r: Reply)
    requires Inv(p, false) && p.out.wire != [] && !Requested(p, false) && p.far.phase != Connected
    requires r == Receive(p.far, p.out.wire[0].frame)
    ensures Inv(Flip(Heard(Flip(p), Some(r))), false)
  {
    HeadOfOut(p, false);
    if p.out.wire[0].meaning.Release? {
      ReleaseAtServer(p, r);
    } else {
      Refuses(p.far, p.out.wire[0]);
      DropAtServer(p, Some(r));
    }
  }

  lemma AtServerUp(p: Pair, arrival: Option<Reply>, faithful: bool)
    requires Inv(p, faithful) && p.out.wire != [] && p.far.phase == Connected
    requires arrival == Some(Receive(p.far, p.out.wire[0].frame))
    ensures Inv(Flip(Heard(Flip(p), arrival)), faithful)
    ensures faithful ==> arrival.value.status == Ok
  {
    UpStage(p, faithful);
    if p.out.wire[0].meaning.Farewell? {
      FarewellAtServer(p, arrival.value);
    } else {
      NumberedAtServer(p, arrival, faithful);
    }
  }

  /** What arrives, in any stage, on either line. */
  lemma ArriveInv(p: Pair, atClient: bool, bytes: seq<Byte>, faithful: bool)
    requires Inv(p, faithful) && Enabled(p, Arrive(atClient, bytes), faithful)
    ensures Inv(Do(p, Arrive(atClient, bytes), faithful), faithful)
    ensures faithful ==> var v := if atClient then p else Flip(p); Arrival(v, bytes).Some? && Arrival(v, bytes).value.status == Ok
  {
    if atClient {
      ArrivesOrNot(p.back.wire[0], p.far.options, bytes, p.rx, faithful);
      AtClient(p, Arrival(p, bytes), faithful);
    } else {
      ArrivesOrNot(p.out.wire[0], p.near.options, bytes, p.rx, faithful);
      AtServer(p, Arrival(Flip(p), bytes), faithful);
    }
  }

  // ----- Runs

  lemma DoInv(p: Pair, a: Action, faithful: bool)
    requires Inv(p, faithful) && Enabled(p, a, faithful)
    ensures Inv(Do(p, a, faithful), faithful)
  {
    match a
    case Connect(user) => ConnectInv(p, user, faithful);
    case Answer => AnswerInv(p, faithful);
    case Send(byClient, payload, pollFinal) => SendInv(p, byClient, payload, pollFinal, faithful);
    case Acknowledge(byClient, pollFinal) => AcknowledgeInv(p, byClient, pollFinal, faithful);
    case Disconnect(byClient, parting) => DisconnectInv(p, byClient, parting);
    case LetGo(byClient) => ReleaseInv(p, byClient);
    case Arrive(atClient, bytes) => ArriveInv(p, atClient, bytes, faithful);
    case Lose(fromClient, i) =>
      if fromClient {
        LoseFromClient(p, i);
      } else {
        LoseFromServer(p, i);
      }
  }

  /** Every action is possible when its turn comes. */
  ghost predicate Possible(p: Pair, actions: seq<Action>, faithful: bool)
    decreases |actions|
  {
    actions == [] || (Enabled(p, actions[0], faithful) && Possible(Do(p, actions[0], faithful), actions[1..], faithful))
  }

  ghost function RunAll(p: Pair, actions: seq<Action>, faithful: bool): Pair
    requires Possible(p, actions, faithful)
    decreases |actions|
  {
    if actions == [] then p else RunAll(Do(p, actions[0], faithful), actions[1..], faithful)
  }

  lemma {:induction false} RunInv(p: Pair, actions: seq<Action>, faithful: bool)
    requires Inv(p, faithful) && Possible(p, actions, faithful)
    ensures Inv(RunAll(p, actions, faithful), faithful)
    decreases |actions|
  {
    if actions != [] {
      DoInv(p, actions[0], faithful);
      RunInv(Do(p, actions[0], faithful), actions[1..], faithful);
    }
  }

  /** A client and a server as constructed, with windows of at most 7 (zero stands for one). */
  predicate Constructed(c: SessionModel.Options, s: SessionModel.Options) {
    && Facing(c, s)
    && c.capability.windowTransmit <= 7 && c.capability.windowReceive <= 7
    && s.capability.windowTransmit <= 7 && s.capability.windowReceive <= 7
  }

  function Initial(c: SessionModel.Options, s: SessionModel.Options, rx: Limits): Pair {
    Pair(SessionModel.Start(c), SessionModel.Start(s), EMPTY, EMPTY, [], rx)
  }

  lemma InitialInv(c: SessionModel.Options, s: SessionModel.Options, rx: Limits, faithful: bool)
    requires Constructed(c, s) && (faithful ==> rx == DefaultLimits())
    ensures Inv(Initial(c, s, rx), faithful)
  {
    StartConsistent(c);
    StartConsistent(s);
    assert Unconnected(Initial(c, s, rx), faithful);
  }

  /** What an end that is up knows: its counters stand for true counts, in order and within its window. */
  predicate CountsTrue(x: Session, f: Flow) {
    x.phase == Connected ==> InOrder(f, x.window) && x.window <= 7 && Counts(x, f.acked, |f.sent|)
  }

  /** Safety. Two sessions connect, negotiate, exchange I and RR frames, disconnect from either side and
      connect again, over lines that may lose any frame and damage it in any detectable way, under any
      codec limits. In every run, in every connection, what each side has accepted is a prefix of what
      the other has sent in that connection, and the true counts stay in order and within a window of
      at most 7: numbering modulo 8 never lets a wrong frame in, be it from this connection or from an
      earlier one. */
  lemma Safety(c: SessionModel.Options, s: SessionModel.Options, rx: Limits, actions: seq<Action>)
    requires Constructed(c, s) && Possible(Initial(c, s, rx), actions, false)
    ensures var p := RunAll(Initial(c, s, rx), actions, false);
      && InOrder(p.out, 7) && InOrder(p.back, 7) && (forall f :: f in p.past ==> InOrder(f, 7))
      && CountsTrue(p.near, p.out) && CountsTrue(p.far, p.back)
  {
    InitialInv(c, s, rx, false);
    RunInv(Initial(c, s, rx), actions, false);
    SafeNow(RunAll(Initial(c, s, rx), actions, false));
  }

  lemma SafeNow(p: Pair)
    requires Inv(p, false)
    ensures Settled(p) && PastSettled(p) && CountsTrue(p.near, p.out) && CountsTrue(p.far, p.back)
  {
    if Running(p, false) && Flows(p, false) {
      FlowsSettled(p, false);
    }
  }

  /** In faithful runs every frame that arrives, from the SNRM on, is received with Ok. */
  lemma FaithfulOk(c: SessionModel.Options, s: SessionModel.Options, actions: seq<Action>, atClient: bool, bytes: seq<Byte>)
    requires Constructed(c, s) && Possible(Initial(c, s, DefaultLimits()), actions, true)
    requires Enabled(RunAll(Initial(c, s, DefaultLimits()), actions, true), Arrive(atClient, bytes), true)
    ensures var p := RunAll(Initial(c, s, DefaultLimits()), actions, true);
      var arrival := Arrival(if atClient then p else Flip(p), bytes);
      arrival.Some? && arrival.value.status == Ok
  {
    InitialInv(c, s, DefaultLimits(), true);
    RunInv(Initial(c, s, DefaultLimits()), actions, true);
    ArriveInv(RunAll(Initial(c, s, DefaultLimits()), actions, true), atClient, bytes, true);
  }

  /** Once faithful lines have drained and the last frame each way carried the current V(R),
      everything sent was delivered and acknowledged, and both windows are open again; and both sides
      are connected if anything was sent at all. */
  lemma Converges(c: SessionModel.Options, s: SessionModel.Options, actions: seq<Action>)
    requires Constructed(c, s) && Possible(Initial(c, s, DefaultLimits()), actions, true)
    requires var p := RunAll(Initial(c, s, DefaultLimits()), actions, true);
      && p.out.wire == [] && p.back.wire == []
      && p.out.announced == |p.back.delivered| && p.back.announced == |p.out.delivered|
    ensures var p := RunAll(Initial(c, s, DefaultLimits()), actions, true);
      && p.out.delivered == p.out.sent && p.back.delivered == p.back.sent
      && p.near.va == p.near.vs && p.far.va == p.far.vs && CanSend(p.near) && CanSend(p.far)
      && (p.out.sent != [] || p.back.sent != [] ==> p.near.phase == Connected && p.far.phase == Connected)
  {
    InitialInv(c, s, DefaultLimits(), true);
    RunInv(Initial(c, s, DefaultLimits()), actions, true);
    Drained(RunAll(Initial(c, s, DefaultLimits()), actions, true));
  }

  lemma Drained(p: Pair)
    requires Inv(p, true)
    requires p.out.wire == [] && p.back.wire == []
    requires p.out.announced == |p.back.delivered| && p.back.announced == |p.out.delivered|
    ensures p.out.delivered == p.out.sent && p.back.delivered == p.back.sent
    ensures p.near.va == p.near.vs && p.far.va == p.far.vs && CanSend(p.near) && CanSend(p.far)
    ensures p.out.sent != [] || p.back.sent != [] ==> p.near.phase == Connected && p.far.phase == Connected
  {
  }
}
