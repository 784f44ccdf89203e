/** What a loss means for the rest of a connection: the payload is never delivered, and nothing behind
    it either. */
module LinkLosses {
  import opened Types
  import opened Bits
  import opened Codec
  import opened Negotiation
  import opened SessionModel
  import opened Link
  import opened LinkLines
  import opened LinkRuns
  import opened LinkPaths

  /** The payload that the receiver waits for was sent and is no longer on the line. */
  predicate Missing(f: Flow) {
    |f.delivered| < |f.sent|
    && forall i :: 0 <= i < |f.wire| && f.wire[i].meaning.Data? ==> f.wire[i].meaning.index > |f.delivered|
  }

  predicate StaysMissing(f: Flow, g: Flow) {
    Missing(f) ==> Missing(g) && g.delivered == f.delivered
  }

  predicate StillMissing(p: Pair, q: Pair) {
    StaysMissing(p.out, q.out) && StaysMissing(p.back, q.back)
  }

  /** The flow to one of the ends, that end, and the link seen from it. */
  function FlowTo(p: Pair, atClient: bool): Flow {
    if atClient then p.back else p.out
  }

  function Receiver(p: Pair, atClient: bool): Session {
    if atClient then p.near else p.far
  }

  function View(p: Pair, atClient: bool): Pair {
    if atClient then p else Flip(p)
  }

  // ----- How a payload gets missing

  lemma {:induction false} IndexBounds(wire: seq<Packet>, sent: seq<seq<Byte>>, n: nat, r: nat, top: nat, last: nat)
    requires InFlight(wire, sent, n, r, top, last, false)
    ensures forall i :: 0 <= i < |wire| && wire[i].meaning.Data? ==> n <= wire[i].meaning.index < |sent|
    decreases |wire|
  {
    if wire != [] {
      match wire[0].meaning
      case Data(k, _, q) => IndexBounds(wire[1..], sent, k + 1, q, top, last);
      case Ready(q) => IndexBounds(wire[1..], sent, n, q, top, last);
      case _ => IndexBounds(wire[1..], sent, n, r, top, last);
    }
  }

  /** The next payload is on the line once, before all others. */
  lemma {:induction false} OnlyOnce(wire: seq<Packet>, i: nat, sent: seq<seq<Byte>>, n: nat, r: nat, top: nat, last: nat)
    requires InFlight(wire, sent, n, r, top, last, false)
    requires i < |wire| && wire[i].meaning.Data? && wire[i].meaning.index == n
    ensures n < |sent|
    ensures forall j :: 0 <= j < |wire| && j != i && wire[j].meaning.Data? ==> wire[j].meaning.index > n
    decreases |wire|
  {
    IndexBounds(wire, sent, n, r, top, last);
    match wire[0].meaning
    case Data(k, _, q) =>
      IndexBounds(wire[1..], sent, k + 1, q, top, last);
      assert forall j :: 0 < j < |wire| ==> wire[j] == wire[1..][j - 1];
    case Ready(q) =>
      OnlyOnce(wire[1..], i - 1, sent, n, q, top, last);
      assert forall j :: 0 < j < |wire| ==> wire[j] == wire[1..][j - 1];
    case _ =>
      OnlyOnce(wire[1..], i - 1, sent, n, r, top, last);
      assert forall j :: 0 < j < |wire| ==> wire[j] == wire[1..][j - 1];
  }

  /** The packet that carries the next payload of the connection. */
  predicate CarriesNext(packet: Packet, f: Flow) {
    packet.meaning.Data? && packet.meaning.index == |f.delivered|
  }

  /** When the line loses the packet that carries the next payload, that payload is missing. */
  lemma LossMakesMissing(v: Pair, i: nat)
    requires Flows(v, false) && i < |v.out.wire| && CarriesNext(v.out.wire[i], v.out)
    ensures Missing(LoseStep(v, i).out)
  {
    OnlyOnce(v.out.wire, i, v.out.sent, |v.out.delivered|, v.back.acked, |v.back.delivered|, v.out.announced);
  }

  /** So it is when that packet arrives and cannot be decoded. */
  lemma DamageMakesMissing(v: Pair, bytes: seq<Byte>)
    requires Flows(v, false) && v.back.wire != [] && CarriesNext(v.back.wire[0], v.back) && Arrival(v, bytes).None?
    ensures Missing(DeliverStep(v, bytes).back)
  {
    OnlyOnce(v.back.wire, 0, v.back.sent, |v.back.delivered|, v.out.acked, |v.out.delivered|, v.back.announced);
  }

  /** In terms of actions: losing the packet that carries the next payload, from either side, in any
      stage in which its receiver is up. */
  lemma LoseMakesMissing(p: Pair, fromClient: bool, i: nat)
    requires Inv(p, false) && (if fromClient then p.far else p.near).phase == Connected
    requires Enabled(p, Lose(fromClient, i), false) && CarriesNext(FlowTo(p, !fromClient).wire[i], FlowTo(p, !fromClient))
    ensures Missing(FlowTo(Do(p, Lose(fromClient, i), false), !fromClient))
  {
    UpStage(p, false);
    FlipFlows(p, false);
    LossMakesMissing(if fromClient then p else Flip(p), i);
  }

  // ----- A missing payload stays missing

  lemma BuiltMissing(v: Pair, r: Reply, frame: Frame, meaning: Meaning)
    requires meaning.Data? ==> meaning.index == |v.out.sent|
    ensures StillMissing(v, Built(v, r, frame, meaning))
  {
  }

  lemma LoseMissing(v: Pair, i: nat)
    requires i < |v.out.wire|
    ensures StillMissing(v, LoseStep(v, i))
  {
  }

  lemma HeardMissing(v: Pair, arrival: Option<Reply>)
    requires v.back.wire != []
    requires arrival.Some? && arrival.value.status == Ok && v.back.wire[0].meaning.Data? ==>
      v.back.wire[0].meaning.index == |v.back.delivered|
    ensures StillMissing(v, Heard(v, arrival))
  {
  }

  /** Whatever arrives, a payload is accepted only if it is the next one. */
  lemma OnlyNext(v: Pair, bytes: seq<Byte>)
    requires (v.near.phase == Connected ==> Flows(v, false)) && Honest(v) && Peers(v)
    requires v.back.wire != [] && MayArrive(v.back.wire[0], bytes, false)
    ensures Arrival(v, bytes).Some? && Arrival(v, bytes).value.status == Ok && v.back.wire[0].meaning.Data? ==>
      v.back.wire[0].meaning.index == |v.back.delivered|
  {
    var packet := v.back.wire[0];
    ArrivesOrNot(packet, v.far.options, bytes, v.rx, false);
    if NumberedFirst(v.back.wire) && Arrival(v, bytes).Some? {
      NextOnly(v, Receive(v.near, packet.frame));
    }
  }

  lemma NextOnly(v: Pair, r: Reply)
    requires (v.near.phase == Connected ==> Flows(v, false)) && Honest(v) && Peers(v)
    requires NumberedFirst(v.back.wire) && r == Receive(v.near, v.back.wire[0].frame)
    ensures r.status == Ok && v.back.wire[0].meaning.Data? ==> v.back.wire[0].meaning.index == |v.back.delivered|
  {
    if v.near.phase != Connected {
      assert Truthful(v.back.wire[0]);
      ReceiveUnconnected(v.near, v.back.wire[0].frame);
    } else {
      NumberedArrival(v, false);
    }
  }

  lemma SendMissing(v: Pair, payload: seq<Byte>, pollFinal: bool)
    ensures StillMissing(v, SendStep(v, payload, pollFinal))
  {
    BuiltMissing(v, BuildInformation(v.near, payload, pollFinal),
                 FrameTo(v.near.options, InformationControl(v.near.vs, v.near.vr, pollFinal), payload),
                 Data(|v.out.sent|, payload, |v.back.delivered|));
  }

  lemma AcknowledgeMissing(v: Pair, pollFinal: bool)
    ensures StillMissing(v, AcknowledgeStep(v, pollFinal))
  {
    BuiltMissing(v, BuildReceiveReady(v.near, pollFinal),
                 FrameTo(v.near.options, ReceiveReadyControl(v.near.vr, pollFinal), []), Ready(|v.back.delivered|));
  }

  lemma ConnectMissing(p: Pair, user: Option<seq<Byte>>)
    ensures StillMissing(p, ConnectStep(p, user)) && ConnectStep(p, user).past == p.past
  {
    var negotiate := user.Some? || p.near.options.capability != DefaultCapability();
    var u := if user.Some? then user.value else [];
    ConnectStepBuilds(p, user);
    BuiltMissing(p, BuildConnectRequest(p.near, negotiate, u),
                 FrameTo(p.near.options, SNRM, ConnectInformation(p.near.options, negotiate, u)), Request);
  }

  /** A server's answer begins a new connection, or changes no line. */
  lemma AnswerMissing(p: Pair)
    ensures var q := Flip(AnswerStep(Flip(p))); |q.past| == |p.past| + 2 || (q.past == p.past && StillMissing(p, q))
  {
    AnswerStepBuilds(p);
  }

  lemma DisconnectMissing(v: Pair, user: seq<Byte>)
    ensures StillMissing(v, DisconnectStep(v, user)) && StillMissing(v, ReleaseStep(v))
  {
    BuiltMissing(v, BuildDisconnectRequest(v.near, user), FrameTo(v.near.options, DISC, user), Farewell);
    BuiltMissing(v, BuildDisconnectResponse(v.near), FrameTo(v.near.options, UA, []), Release);
  }

  lemma ArriveMissing(v: Pair, bytes: seq<Byte>)
    requires (v.near.phase == Connected ==> Flows(v, false)) && Honest(v) && Peers(v)
    requires v.back.wire != [] && MayArrive(v.back.wire[0], bytes, false)
    ensures StillMissing(v, DeliverStep(v, bytes)) && DeliverStep(v, bytes).past == v.past
  {
    OnlyNext(v, bytes);
    HeardMissing(v, Arrival(v, bytes));
  }

  /** One action keeps what is missing, unless it begins a new connection. */
  predicate Holds(p: Pair, q: Pair) {
    |q.past| >= |p.past| && (|q.past| == |p.past| ==> StillMissing(p, q))
  }

  lemma DoMissing(p: Pair, a: Action)
    requires Inv(p, false) && Enabled(p, a, false)
    ensures Holds(p, Do(p, a, false))
  {
    match a
    case Connect(user) => ConnectMissing(p, user);
    case Answer => AnswerMissing(p);
    case Send(byClient, payload, pollFinal) => SendMissing(if byClient then p else Flip(p), payload, pollFinal);
    case Acknowledge(byClient, pollFinal) => AcknowledgeMissing(if byClient then p else Flip(p), pollFinal);
    case Disconnect(byClient, parting) => DisconnectMissing(if byClient then p else Flip(p), parting);
    case LetGo(byClient) => DisconnectMissing(if byClient then p else Flip(p), []);
    case Arrive(atClient, bytes) =>
      UpStage(p, false);
      FlipFlows(p, false);
      ArriveMissing(if atClient then p else Flip(p), bytes);
    case Lose(fromClient, i) => LoseMissing(if fromClient then p else Flip(p), i);
  }

  lemma {:induction false} RunMissing(p: Pair, actions: seq<Action>)
    requires Inv(p, false) && Possible(p, actions, false)
    ensures Holds(p, RunAll(p, actions, false))
    decreases |actions|
  {
    if actions != [] {
      DoMissing(p, actions[0]);
      DoInv(p, actions[0], false);
      RunMissing(Do(p, actions[0], false), actions[1..]);
    }
  }

  /** A lost payload stalls its direction for good: in no continuation of the connection is anything
      more delivered in it, and its sender stops after at most a window of further payloads. The
      session numbers each call's payload anew and never sends one again. */
  lemma StalledForever(c: SessionModel.Options, s: SessionModel.Options, rx: Limits, before: seq<Action>, after: seq<Action>)
    requires Constructed(c, s) && Possible(Initial(c, s, rx), before, false)
    requires Possible(RunAll(Initial(c, s, rx), before, false), after, false)
    requires |RunAll(RunAll(Initial(c, s, rx), before, false), after, false).past|
          == |RunAll(Initial(c, s, rx), before, false).past|
    ensures var p := RunAll(Initial(c, s, rx), before, false);
      var q := RunAll(p, after, false);
      && (Missing(p.out) ==> q.out.delivered == p.out.delivered && |q.out.sent| <= |p.out.delivered| + 7)
      && (Missing(p.back) ==> q.back.delivered == p.back.delivered && |q.back.sent| <= |p.back.delivered| + 7)
  {
    var p := RunAll(Initial(c, s, rx), before, false);
    InitialInv(c, s, rx, false);
    RunInv(Initial(c, s, rx), before, false);
    RunInv(p, after, false);
    RunMissing(p, after);
    SafeNow(RunAll(p, after, false));
  }

  // ----- What is not missing can be delivered

  lemma {:induction false} NoDataBehind(wire: seq<Packet>, low: nat, high: nat)
    requires Line(wire, low, high) && low >= 2
    ensures forall i :: 0 <= i < |wire| ==> !Numbered(wire[i])
    decreases |wire|
  {
    if wire != [] {
      NoDataBehind(wire[1..], After(Rank(wire[0].meaning)), high);
    }
  }

  /** A connection in which the next payload is on its way to a receiver that is up. */
  ghost predicate OnItsWay(v: Pair, i: nat) {
    && Flows(v, false) && Honest(v) && Peers(v) && v.rx == DefaultLimits() && v.near.phase == Connected
    && i < |v.back.wire| && CarriesNext(v.back.wire[i], v.back)
    && Line(v.back.wire, 1, 2)
  }

  /** What stands in front of the next payload is an acknowledgement. */
  lemma InFront(v: Pair, i: nat)
    requires OnItsWay(v, i)
    ensures if i == 0 then CarriesNext(v.back.wire[0], v.back) else v.back.wire[0].meaning.Ready?
  {
    if i > 0 {
      OnlyOnce(v.back.wire, i, v.back.sent, |v.back.delivered|, v.out.acked, |v.out.delivered|, v.back.announced);
      assert v.back.wire[i] == v.back.wire[1..][i - 1];
      if v.back.wire[0].meaning.Data? {
        DataFirst(v.back.wire, i, v.back.sent, |v.back.delivered|, v.out.acked, |v.out.delivered|, v.back.announced);
      } else if !v.back.wire[0].meaning.Ready? {
        NoDataBehind(v.back.wire[1..], After(Rank(v.back.wire[0].meaning)), 2);
      }
    }
  }

  lemma DataFirst(wire: seq<Packet>, i: nat, sent: seq<seq<Byte>>, n: nat, r: nat, top: nat, last: nat)
    requires InFlight(wire, sent, n, r, top, last, false) && 0 < i < |wire|
    requires wire[i].meaning.Data? && wire[i].meaning.index == n
    ensures !wire[0].meaning.Data?
  {
    assert wire[i] == wire[1..][i - 1];
    if wire[0].meaning.Data? {
      IndexBounds(wire[1..], sent, wire[0].meaning.index + 1, wire[0].meaning.received, top, last);
    }
  }

  /** The first packet arrives whole: it is the next payload, or it brings that one nearer. */
  lemma FirstArrives(v: Pair, i: nat)
    requires OnItsWay(v, i)
    ensures var q := DeliverStep(v, v.back.wire[0].bytes);
      && q.past == v.past
      && (if i == 0 then |q.back.delivered| == |v.back.delivered| + 1
          else q.back.delivered == v.back.delivered && OnItsWay(q, i - 1))
  {
    var packet := v.back.wire[0];
    var r := Receive(v.near, packet.frame);
    InFront(v, i);
    assert MayArrive(packet, packet.bytes, false) && Genuine(packet, v.far.options);
    ArrivesOrNot(packet, v.far.options, packet.bytes, v.rx, false);
    NumberedArrival(v, false);
    HeardKeeps(v, Some(r), false);
    if i > 0 {
      Nearer(v, r, i);
    }
  }

  lemma Nearer(v: Pair, r: Reply, i: nat)
    requires OnItsWay(v, i) && i > 0 && v.back.wire[0].meaning.Ready?
    requires r == Answered(v.near.(va := r.session.va), Ok) && Flows(Heard(v, Some(r)), false)
    ensures OnItsWay(Heard(v, Some(r)), i - 1) && Heard(v, Some(r)).back.delivered == v.back.delivered
  {
    AllHonestRest(v.back.wire, v.far.options);
    assert v.back.wire[1..][i - 1] == v.back.wire[i];
  }

  lemma WayThere(p: Pair, atClient: bool)
    requires Inv(p, false) && Receiver(p, atClient).phase == Connected
    ensures var v := View(p, atClient);
      Flows(v, false) && Honest(v) && Peers(v) && Line(v.back.wire, 1, 2)
  {
    UpStage(p, false);
    FlipFlows(p, false);
    if atClient {
      LineWiden(p.back.wire, 1, Sent(p), 1, 2);
    } else {
      OutLine(p);
    }
  }

  lemma OutLine(p: Pair)
    requires Running(p, false)
    ensures Line(p.out.wire, 1, 2)
  {
    if Up(p, false) {
      LineWiden(p.out.wire, 1, 1, 1, 2);
    }
  }

  lemma ReachesHolds(p: Pair, q: Pair)
    requires Inv(p, false) && Reaches(p, q, false)
    ensures Holds(p, q)
  {
    var actions :| Possible(p, actions, false) && RunAll(p, actions, false) == q;
    RunMissing(p, actions);
  }

  lemma ArrivalSteps(p: Pair, atClient: bool)
    requires View(p, atClient).back.wire != []
    ensures var v := View(p, atClient); OneStep(p, View(DeliverStep(v, v.back.wire[0].bytes), atClient), false)
  {
    var v := View(p, atClient);
    var a := Arrive(atClient, v.back.wire[0].bytes);
    assert MayArrive(v.back.wire[0], v.back.wire[0].bytes, false);
    assert Enabled(p, a, false);
    assert Do(p, a, false) == View(DeliverStep(v, v.back.wire[0].bytes), atClient);
  }

  /** If the next payload is still on the line, letting the packets before it and itself arrive
      delivers it. */
  lemma {:induction false} Deliverable(p: Pair, atClient: bool, v: Pair, i: nat) returns (q: Pair)
    requires v == View(p, atClient) && OnItsWay(v, i)
    ensures Reaches(p, q, false) && q.past == p.past
    ensures |FlowTo(q, atClient).delivered| == |FlowTo(p, atClient).delivered| + 1
    decreases i, 1
  {
    var w := DeliverStep(v, v.back.wire[0].bytes);
    FirstArrives(v, i);
    ArrivalSteps(p, atClient);
    Views(p, atClient, v, w);
    q := Onwards(View(w, atClient), atClient, w, i);
    ReachesBehind(p, View(w, atClient), q, false);
  }

  lemma {:induction false} Onwards(p: Pair, atClient: bool, v: Pair, i: nat) returns (q: Pair)
    requires v == View(p, atClient) && (i > 0 ==> OnItsWay(v, i - 1))
    ensures Reaches(p, q, false) && q.past == p.past
    ensures |FlowTo(q, atClient).delivered| == |FlowTo(p, atClient).delivered| + (if i == 0 then 0 else 1)
    decreases i, 0
  {
    if i > 0 {
      q := Deliverable(p, atClient, v, i - 1);
    } else {
      q := p;
      ReachesItself(p, false);
    }
  }

  lemma Views(p: Pair, atClient: bool, v: Pair, w: Pair)
    requires v == View(p, atClient)
    ensures View(View(w, atClient), atClient) == w && v.past == p.past && View(w, atClient).past == w.past
    ensures FlowTo(p, atClient) == v.back && FlowTo(View(w, atClient), atClient) == w.back
  {
  }

  /** In a connection with a receiver that is up and has not got everything, the next payload is missing
      if and only if no continuation of the connection delivers anything more to it. */
  lemma MissingExactly(p: Pair, atClient: bool)
    requires Inv(p, false) && p.rx == DefaultLimits() && Receiver(p, atClient).phase == Connected
    requires |FlowTo(p, atClient).delivered| < |FlowTo(p, atClient).sent|
    ensures Missing(FlowTo(p, atClient)) <==>
      forall q :: Reaches(p, q, false) && |q.past| == |p.past| ==>
                    FlowTo(q, atClient).delivered == FlowTo(p, atClient).delivered
  {
    var f := FlowTo(p, atClient);
    if Missing(f) {
      forall q | Reaches(p, q, false) && |q.past| == |p.past|
        ensures FlowTo(q, atClient).delivered == f.delivered
      {
        ReachesHolds(p, q);
      }
    } else {
      var i := StillThere(p, atClient);
      WayThere(p, atClient);
      var q := Deliverable(p, atClient, View(p, atClient), i);
    }
  }

  /** What was sent and is not missing is still on the line. */
  lemma StillThere(p: Pair, atClient: bool) returns (i: nat)
    requires Inv(p, false) && Receiver(p, atClient).phase == Connected
    requires |FlowTo(p, atClient).delivered| < |FlowTo(p, atClient).sent| && !Missing(FlowTo(p, atClient))
    ensures i < |FlowTo(p, atClient).wire| && CarriesNext(FlowTo(p, atClient).wire[i], FlowTo(p, atClient))
  {
    WayThere(p, atClient);
    var v := View(p, atClient);
    i := StillOnLine(FlowTo(p, atClient), v.out.acked, |v.out.delivered|);
  }

  lemma StillOnLine(f: Flow, r: nat, top: nat) returns (i: nat)
    requires InFlight(f.wire, f.sent, |f.delivered|, r, top, f.announced, false)
    requires |f.delivered| < |f.sent| && !Missing(f)
    ensures i < |f.wire| && CarriesNext(f.wire[i], f)
  {
    i :| 0 <= i < |f.wire| && f.wire[i].meaning.Data? && f.wire[i].meaning.index <= |f.delivered|;
    IndexBounds(f.wire, f.sent, |f.delivered|, r, top, f.announced);
  }
}
