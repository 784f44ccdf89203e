/** What is refused when nothing is lost: on lines that deliver every frame as it was sent, with
    disconnects by either side and any number of connections. */
module LinkPartings {
  import opened Types
  import opened Bits
  import opened Codec
  import opened Negotiation
  import opened SessionModel
  import opened Link
  import opened LinkLines
  import opened LinkCalls
  import opened LinkRuns
  import opened LinkPaths

  // ----- Runs in which nothing is lost

  /** Frames arrive as they were sent. */
  predicate Faultless(p: Pair, a: Action) {
    match a
    case Arrive(atClient, bytes) =>
      var wire := if atClient then p.back.wire else p.out.wire;
      wire != [] && bytes == wire[0].bytes
    case Lose(_, _) => false
    case _ => true
  }

  ghost predicate AllFaultless(p: Pair, actions: seq<Action>)
    requires Possible(p, actions, false)
    decreases |actions|
  {
    actions == [] || (Faultless(p, actions[0]) && AllFaultless(Do(p, actions[0], false), actions[1..]))
  }

  // ----- What is on the lines

  /** The payloads on the line are those from n up to m. */
  predicate NoGap(wire: seq<Packet>, n: nat, m: nat)
    decreases |wire|
  {
    if wire == [] then n == m
    else
      match wire[0].meaning
      case Data(k, _, _) => k == n && NoGap(wire[1..], n + 1, m)
      case _ => NoGap(wire[1..], n, m)
  }

  predicate Whole(f: Flow) {
    NoGap(f.wire, |f.delivered|, |f.sent|)
  }

  predicate HasRelease(wire: seq<Packet>) {
    exists i :: 0 <= i < |wire| && wire[i].meaning.Release?
  }

  /** The answer to a request is on its way, and everything behind it. */
  predicate Answering(f: Flow) {
    f.wire != [] && f.wire[0].meaning.Response? && Whole(f)
  }

  /** Nothing that matters to an end that listens was lost. */
  predicate Tidy(p: Pair) {
    && (p.near.phase == Connected ==> Whole(p.back))
    && (p.far.phase == Connected ==> Whole(p.out))
    && (p.near.phase == AwaitingConnection && Serving(p) ==> Answering(p.back) || HasRelease(p.out.wire))
    && (p.near.phase == Disconnected && p.far.phase == AwaitingDisconnect ==> HasRelease(p.out.wire))
  }

  lemma {:induction false} GapSend(wire: seq<Packet>, n: nat, m: nat, packet: Packet)
    requires NoGap(wire, n, m) && (packet.meaning.Data? ==> packet.meaning.index == m)
    ensures NoGap(wire + [packet], n, if packet.meaning.Data? then m + 1 else m)
    decreases |wire|
  {
    if wire == [] {
      assert [packet][1..] == [];
    } else {
      assert (wire + [packet])[1..] == wire[1..] + [packet];
      GapSend(wire[1..], if wire[0].meaning.Data? then n + 1 else n, m, packet);
    }
  }

  /** One more packet on the line. */
  predicate Extends(f: Flow, g: Flow, packet: Packet) {
    && g.wire == f.wire + [packet] && g.delivered == f.delivered
    && |g.sent| == |f.sent| + (if packet.meaning.Data? then 1 else 0)
    && (packet.meaning.Data? ==> packet.meaning.index == |f.sent|)
  }

  predicate Same(f: Flow, g: Flow) {
    g.wire == f.wire && g.delivered == f.delivered && g.sent == f.sent
  }

  lemma ExtendsWhole(f: Flow, g: Flow, packet: Packet)
    requires Extends(f, g, packet)
    ensures Whole(f) ==> Whole(g)
    ensures HasRelease(f.wire) || packet.meaning.Release? ==> HasRelease(g.wire)
    ensures Answering(f) ==> Answering(g)
  {
    if Whole(f) {
      GapSend(f.wire, |f.delivered|, |f.sent|, packet);
    }
    if packet.meaning.Release? {
      assert g.wire[|f.wire|] == packet;
    } else if HasRelease(f.wire) {
      var i :| 0 <= i < |f.wire| && f.wire[i].meaning.Release?;
      assert g.wire[i] == f.wire[i];
    }
  }

  /** A connected server has a client that is not disconnected. */
  predicate Attended(p: Pair) {
    p.far.phase == Connected ==> p.near.phase != Disconnected
  }

  // ----- Building

  /** The client's phase after it built this packet. */
  predicate ClientMoves(p: Pair, q: Pair, packet: Packet) {
    || q.near.phase == p.near.phase
    || (p.near.phase == Connected && q.near.phase == AwaitingDisconnect)
    || (p.near.phase == Disconnected && q.near.phase == AwaitingConnection)
    || (q.near.phase == Disconnected && packet.meaning.Release?)
  }

  lemma ClientBuilds(p: Pair, q: Pair, packet: Packet)
    requires Tidy(p) && Attended(p) && Extends(p.out, q.out, packet) && Same(p.back, q.back)
    requires q.far.phase == p.far.phase && ClientMoves(p, q, packet)
    ensures Tidy(q)
  {
    ExtendsWhole(p.out, q.out, packet);
  }

  predicate ServerMoves(p: Pair, q: Pair, packet: Packet) {
    || q.far.phase == p.far.phase
    || (p.far.phase == Connected && q.far.phase == AwaitingDisconnect)
    || (q.far.phase == Disconnected && packet.meaning.Release?)
  }

  lemma ServerBuilds(p: Pair, q: Pair, packet: Packet)
    requires Tidy(p) && Attended(p) && Extends(p.back, q.back, packet) && Same(p.out, q.out)
    requires q.near.phase == p.near.phase && ServerMoves(p, q, packet)
    ensures Tidy(q)
  {
    ExtendsWhole(p.back, q.back, packet);
  }

  /** A build call other than an answer, by either side. */
  lemma BuiltTidy(p: Pair, byClient: bool, r: Reply, frame: Frame, meaning: Meaning)
    requires Tidy(p) && Attended(p)
    requires var v := if byClient then p else Flip(p);
      && (meaning.Data? ==> meaning.index == |v.out.sent|)
      && (if r.status != Ok then r.session.phase == v.near.phase
          else
            || r.session.phase == v.near.phase
            || (v.near.phase == Connected && r.session.phase == AwaitingDisconnect)
            || (byClient && v.near.phase == Disconnected && r.session.phase == AwaitingConnection)
            || (r.session.phase == Disconnected && meaning.Release?))
    ensures Tidy(if byClient then Built(p, r, frame, meaning) else Flip(Built(Flip(p), r, frame, meaning)))
  {
    var q := if byClient then Built(p, r, frame, meaning) else Flip(Built(Flip(p), r, frame, meaning));
    if r.status == Ok {
      if byClient {
        ClientBuilds(p, q, Packet(r.output, frame, meaning));
      } else {
        ServerBuilds(p, q, Packet(r.output, frame, meaning));
      }
    }
  }

  lemma ConnectTidy(p: Pair, user: Option<seq<Byte>>)
    requires Tidy(p) && Attended(p)
    ensures Tidy(ConnectStep(p, user))
  {
    var negotiate := user.Some? || p.near.options.capability != DefaultCapability();
    var u := if user.Some? then user.value else [];
    ConnectStepBuilds(p, user);
    ConnectRequestBuilt(p.near, negotiate, u);
    BuiltTidy(p, true, BuildConnectRequest(p.near, negotiate, u),
              FrameTo(p.near.options, SNRM, ConnectInformation(p.near.options, negotiate, u)), Request);
  }

  lemma SendTidy(p: Pair, byClient: bool, payload: seq<Byte>, pollFinal: bool)
    requires Tidy(p) && Attended(p)
    ensures Tidy(if byClient then SendStep(p, payload, pollFinal) else Flip(SendStep(Flip(p), payload, pollFinal)))
  {
    var v := if byClient then p else Flip(p);
    InformationBuilt(v.near, payload, pollFinal);
    BuiltTidy(p, byClient, BuildInformation(v.near, payload, pollFinal),
              FrameTo(v.near.options, InformationControl(v.near.vs, v.near.vr, pollFinal), payload),
              Data(|v.out.sent|, payload, |v.back.delivered|));
  }

  lemma AcknowledgeTidy(p: Pair, byClient: bool, pollFinal: bool)
    requires Tidy(p) && Attended(p)
    ensures Tidy(if byClient then AcknowledgeStep(p, pollFinal) else Flip(AcknowledgeStep(Flip(p), pollFinal)))
  {
    var v := if byClient then p else Flip(p);
    ReceiveReadyBuilt(v.near, pollFinal);
    BuiltTidy(p, byClient, BuildReceiveReady(v.near, pollFinal),
              FrameTo(v.near.options, ReceiveReadyControl(v.near.vr, pollFinal), []), Ready(|v.back.delivered|));
  }

  lemma DisconnectTidy(p: Pair, byClient: bool, parting: seq<Byte>)
    requires Tidy(p) && Attended(p)
    ensures Tidy(if byClient then DisconnectStep(p, parting) else Flip(DisconnectStep(Flip(p), parting)))
  {
    var v := if byClient then p else Flip(p);
    DisconnectRequestBuilt(v.near, parting);
    BuiltTidy(p, byClient, BuildDisconnectRequest(v.near, parting), FrameTo(v.near.options, DISC, parting), Farewell);
  }

  lemma ReleaseTidy(p: Pair, byClient: bool)
    requires Tidy(p) && Attended(p)
    ensures Tidy(if byClient then ReleaseStep(p) else Flip(ReleaseStep(Flip(p))))
  {
    var v := if byClient then p else Flip(p);
    DisconnectResponseBuilt(v.near);
    BuiltTidy(p, byClient, BuildDisconnectResponse(v.near), FrameTo(v.near.options, UA, []), Release);
  }

  lemma AnswerTidy(p: Pair)
    requires Inv(p, false) && Tidy(p)
    ensures Tidy(Flip(AnswerStep(Flip(p))))
  {
    var r := BuildConnectResponse(p.far);
    ConnectResponseBuilt(p.far);
    AnswerStepBuilds(p);
    if r.status == Ok {
      PendingStage(p, false);
      OpenedTidy(p, r, FrameTo(ApplyAnswer(p.far).options, UA, AnswerInformation(p.far)));
    }
  }

  lemma OpenedTidy(p: Pair, r: Reply, frame: Frame)
    requires p.out.wire == [] && p.back.wire == [] && p.near.phase == AwaitingConnection
    requires r.status == Ok && r.session.phase == Connected
    ensures Tidy(Flip(Built(Opened(Flip(p)), r, frame, Response)))
  {
    var q, packet := Flip(Built(Opened(Flip(p)), r, frame, Response)), Packet(r.output, frame, Response);
    assert q.back.wire == [packet] && [packet][1..] == [];
    assert NoGap([], 0, 0) && Whole(q.back) && Answering(q.back);
  }

  // ----- Hearing

  /** A frame of a connection that its receiver has asked to end. */
  predicate TooLate(x: Session, packet: Packet) {
    (Numbered(packet) || packet.meaning.Farewell?) && x.phase == AwaitingDisconnect
  }

  /** What can be on a line for an end in this phase, when nothing was lost. */
  lemma HeadForClient(p: Pair)
    requires Stage(p, false) && Tidy(p) && p.back.wire != []
    ensures match p.back.wire[0].meaning
      case Response => p.near.phase == AwaitingConnection && Whole(p.back)
      case Release => p.near.phase == AwaitingDisconnect && p.far.phase == Disconnected
      case Request => false
      case _ => p.near.phase == Connected || p.near.phase == AwaitingDisconnect
  {
    ReleasedStage(p);
  }

  lemma HeadForServer(p: Pair)
    requires Stage(p, false) && Tidy(p) && p.out.wire != []
    ensures match p.out.wire[0].meaning
      case Request => p.far.phase == Disconnected
      case Release => p.far.phase == AwaitingDisconnect
      case Response => false
      case _ => p.far.phase == Connected || p.far.phase == AwaitingDisconnect
  {
    ReleasedStage(p);
    if p.out.wire[0].meaning.Request? && Gone(p) {
      LineEmpty(p.out.wire[1..], 5, if p.near.phase == Disconnected then 3 else 4);
    }
  }

  /** The first packet, taken off a line on which nothing is missing, is the next payload if it is one. */
  lemma WholeHead(f: Flow)
    requires Whole(f) && f.wire != []
    ensures f.wire[0].meaning.Data? ==> f.wire[0].meaning.index == |f.delivered|
    ensures NoGap(f.wire[1..], if f.wire[0].meaning.Data? then |f.delivered| + 1 else |f.delivered|, |f.sent|)
  {
  }

  /** How an end that listens goes on after the first packet. */
  predicate Hears(f: Flow, x: Session, r: Reply) {
    f.wire != [] && r.status == Ok
    && match f.wire[0].meaning
       case Response => r.session.phase == Connected
       case Release => r.session.phase == Disconnected
       case _ => r.session.phase == x.phase
  }

  /** What the client makes of the first packet, if its bytes arrive whole. */
  lemma ClientOutcome(p: Pair, r: Reply)
    requires Inv(p, false) && Tidy(p) && p.back.wire != [] && r == Receive(p.near, p.back.wire[0].frame)
    ensures if TooLate(p.near, p.back.wire[0]) then r.status != Ok && r.session == p.near else Hears(p.back, p.near, r)
  {
    var packet := p.back.wire[0];
    HeadForClient(p);
    HeadOfBack(p, false);
    match packet.meaning
    case Response => ResponseAccepted(p.near, packet);
    case Release => ReleaseAccepted(p.near, packet.frame);
    case Request =>
    case Farewell =>
      if TooLate(p.near, packet) {
        Refuses(p.near, packet);
      } else {
        FarewellAccepted(p.near, packet.frame);
      }
    case _ =>
      if TooLate(p.near, packet) {
        Refuses(p.near, packet);
      } else {
        UpStage(p, false);
        WholeHead(p.back);
        NumberedArrival(p, false);
      }
  }

  lemma ServerOutcome(p: Pair, r: Reply)
    requires Inv(p, false) && Tidy(p) && p.out.wire != [] && r == Receive(p.far, p.out.wire[0].frame)
    ensures if TooLate(p.far, p.out.wire[0]) then r.status != Ok && r.session == p.far else Hears(p.out, p.far, r)
  {
    var packet := p.out.wire[0];
    HeadForServer(p);
    HeadOfOut(p, false);
    match packet.meaning
    case Response =>
    case Release => ReleaseAccepted(p.far, packet.frame);
    case Request => RequestTaken(p.far, packet, p.near.options.capability);
    case Farewell =>
      if TooLate(p.far, packet) {
        Refuses(p.far, packet);
      } else {
        FarewellAccepted(p.far, packet.frame);
      }
    case _ =>
      if TooLate(p.far, packet) {
        Refuses(p.far, packet);
      } else {
        UpStage(p, false);
        FlipFlows(p, false);
        WholeHead(p.out);
        NumberedArrival(Flip(p), false);
      }
  }

  /** The books after the first packet. */
  lemma HeardFlow(v: Pair, r: Reply)
    requires v.back.wire != []
    ensures var h, head := Heard(v, Some(r)), v.back.wire[0].meaning;
      && h.near == r.session && h.far == v.far && h.out.wire == v.out.wire
      && h.out.sent == v.out.sent && h.out.delivered == v.out.delivered
      && h.back.wire == v.back.wire[1..] && h.back.sent == v.back.sent
      && |h.back.delivered| == |v.back.delivered| + (if head.Data? && r.status == Ok then 1 else 0)
  {
  }

  lemma KeepsRelease(wire: seq<Packet>)
    requires HasRelease(wire) && !wire[0].meaning.Release?
    ensures HasRelease(wire[1..])
  {
    var i :| 0 <= i < |wire| && wire[i].meaning.Release?;
    assert wire[1..][i - 1] == wire[i];
  }

  lemma StageOf(p: Pair)
    requires Inv(p, false)
    ensures Stage(p, false) && Attended(p)
  {
  }

  lemma ClientHears(p: Pair, r: Reply)
    requires Inv(p, false) && Tidy(p) && p.back.wire != [] && r == Receive(p.near, p.back.wire[0].frame)
    ensures Tidy(Heard(p, Some(r)))
  {
    ClientOutcome(p, r);
    HeadForClient(p);
    HeardFlow(p, r);
    ClientAfter(p, Heard(p, Some(r)), r);
  }

  lemma ClientAfter(p: Pair, h: Pair, r: Reply)
    requires Tidy(p) && Attended(p) && p.back.wire != []
    requires if TooLate(p.near, p.back.wire[0]) then r.status != Ok && r.session == p.near else Hears(p.back, p.near, r)
    requires match p.back.wire[0].meaning
      case Response => p.near.phase == AwaitingConnection && Whole(p.back)
      case Release => p.near.phase == AwaitingDisconnect && p.far.phase == Disconnected
      case Request => false
      case _ => p.near.phase == Connected || p.near.phase == AwaitingDisconnect
    requires h.near == r.session && h.far == p.far && Same(p.out, h.out)
    requires h.back.wire == p.back.wire[1..] && h.back.sent == p.back.sent
    requires |h.back.delivered| == |p.back.delivered| + (if p.back.wire[0].meaning.Data? && r.status == Ok then 1 else 0)
    ensures Tidy(h)
  {
    if h.near.phase == Connected && Whole(p.back) {
      WholeHead(p.back);
    }
  }

  lemma ServerHears(p: Pair, r: Reply)
    requires Inv(p, false) && Tidy(p) && p.out.wire != [] && r == Receive(p.far, p.out.wire[0].frame)
    ensures Tidy(Flip(Heard(Flip(p), Some(r))))
  {
    StageOf(p);
    ServerOutcome(p, r);
    HeadForServer(p);
    HeardFlow(Flip(p), r);
    ServerAfter(p, Flip(Heard(Flip(p), Some(r))), r);
  }

  lemma ServerAfter(p: Pair, h: Pair, r: Reply)
    requires Tidy(p) && Attended(p) && p.out.wire != []
    requires if TooLate(p.far, p.out.wire[0]) then r.status != Ok && r.session == p.far else Hears(p.out, p.far, r)
    requires match p.out.wire[0].meaning
      case Request => p.far.phase == Disconnected
      case Release => p.far.phase == AwaitingDisconnect
      case Response => false
      case _ => p.far.phase == Connected || p.far.phase == AwaitingDisconnect
    requires h.far == r.session && h.near == p.near && Same(p.back, h.back)
    requires h.out.wire == p.out.wire[1..] && h.out.sent == p.out.sent
    requires |h.out.delivered| == |p.out.delivered| + (if p.out.wire[0].meaning.Data? && r.status == Ok then 1 else 0)
    ensures Tidy(h)
  {
    if h.far.phase == Connected {
      WholeHead(p.out);
    }
    if HasRelease(p.out.wire) && !p.out.wire[0].meaning.Release? {
      KeepsRelease(p.out.wire);
    }
  }

  lemma ArriveTidy(p: Pair, atClient: bool)
    requires Inv(p, false) && Tidy(p) && p.rx == DefaultLimits()
    requires (if atClient then p.back.wire else p.out.wire) != []
    ensures var v := if atClient then p else Flip(p);
      var q := DeliverStep(v, v.back.wire[0].bytes);
      && Tidy(if atClient then q else Flip(q))
      && Arrival(v, v.back.wire[0].bytes) == Some(Receive(v.near, v.back.wire[0].frame))
  {
    var v := if atClient then p else Flip(p);
    var packet := v.back.wire[0];
    if atClient {
      HeadOfBack(p, false);
    } else {
      HeadOfOut(p, false);
    }
    ArrivesOrNot(packet, v.far.options, packet.bytes, p.rx, true);
    HeardFlow(v, Receive(v.near, packet.frame));
    if atClient {
      ClientHears(p, Receive(p.near, packet.frame));
    } else {
      ServerHears(p, Receive(p.far, packet.frame));
    }
  }

  // ----- Runs

  lemma DoTidy(p: Pair, a: Action)
    requires Inv(p, false) && Tidy(p) && p.rx == DefaultLimits() && Faultless(p, a) && Enabled(p, a, false)
    ensures Tidy(Do(p, a, false))
  {
    StageOf(p);
    match a
    case Connect(user) => ConnectTidy(p, user);
    case Answer => AnswerTidy(p);
    case Send(byClient, payload, pollFinal) => SendTidy(p, byClient, payload, pollFinal);
    case Acknowledge(byClient, pollFinal) => AcknowledgeTidy(p, byClient, pollFinal);
    case Disconnect(byClient, parting) => DisconnectTidy(p, byClient, parting);
    case LetGo(byClient) => ReleaseTidy(p, byClient);
    case Arrive(atClient, bytes) => ArriveTidy(p, atClient);
  }

  lemma {:induction false} RunTidy(p: Pair, actions: seq<Action>)
    requires Inv(p, false) && Tidy(p) && p.rx == DefaultLimits()
    requires Possible(p, actions, false) && AllFaultless(p, actions)
    ensures var q := RunAll(p, actions, false);
      Inv(q, false) && Tidy(q) && q.rx == DefaultLimits()
    decreases |actions|
  {
    if actions != [] {
      DoTidy(p, actions[0]);
      DoEnds(p, actions[0], false);
      DoInv(p, actions[0], false);
      RunTidy(Do(p, actions[0], false), actions[1..]);
    }
  }

  /** When every frame arrives as it was sent, in every run with disconnects by either side and any
      number of connections, a frame is refused if and only if it is an I-frame, an RR or a DISC and
      its receiver has itself asked to disconnect; and refusing it changes nothing. Everything else is
      received with Ok. */
  lemma RefusedExactly(c: SessionModel.Options, s: SessionModel.Options, actions: seq<Action>, atClient: bool)
    requires Constructed(c, s) && Possible(Initial(c, s, DefaultLimits()), actions, false)
    requires AllFaultless(Initial(c, s, DefaultLimits()), actions)
    requires var p := RunAll(Initial(c, s, DefaultLimits()), actions, false);
      (if atClient then p.back.wire else p.out.wire) != []
    ensures var p := RunAll(Initial(c, s, DefaultLimits()), actions, false);
      var v := if atClient then p else Flip(p);
      var arrival := Arrival(v, v.back.wire[0].bytes);
      && arrival.Some?
      && (arrival.value.status == Ok <==> !TooLate(v.near, v.back.wire[0]))
      && (arrival.value.status != Ok ==> arrival.value.session == v.near)
  {
    var start := Initial(c, s, DefaultLimits());
    InitialInv(c, s, DefaultLimits(), false);
    RunTidy(start, actions);
    RefusedNow(RunAll(start, actions, false), atClient);
  }

  lemma RefusedNow(p: Pair, atClient: bool)
    requires Inv(p, false) && Tidy(p) && p.rx == DefaultLimits()
    requires (if atClient then p.back.wire else p.out.wire) != []
    ensures var v := if atClient then p else Flip(p);
      var arrival := Arrival(v, v.back.wire[0].bytes);
      && arrival.Some?
      && (arrival.value.status == Ok <==> !TooLate(v.near, v.back.wire[0]))
      && (arrival.value.status != Ok ==> arrival.value.session == v.near)
  {
    ArriveTidy(p, atClient);
    if atClient {
      ClientOutcome(p, Receive(p.near, p.back.wire[0].frame));
    } else {
      ServerOutcome(p, Receive(p.far, p.out.wire[0].frame));
    }
  }
}
