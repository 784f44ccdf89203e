/** Two sessions joined by two lines. Each line carries whole frames in order; it may lose any of
    them and damage their bits. True counts of what was sent, delivered and acknowledged are kept
    beside the three-bit counters of the sessions. */
module Link {
  import opened Types
  import opened Bits
  import opened ControlField
  import opened Codec
  import opened FrameDamage
  import opened Negotiation
  import opened SessionModel
  import opened SessionNegotiation

  // ----- Three-bit windows refine true counts

  /** The three-bit counters of a sender stand for true counts. */
  predicate Counts(s: Session, acked: nat, sent: nat) {
    s.va == acked % 8 && s.vs == sent % 8 && acked <= sent < acked + 8
  }

  lemma Residues(a: nat, b: nat)
    requires b <= a < b + 8
    ensures (a % 8 - b % 8) % 8 == a - b
  {
  }

  lemma Advance(b: nat, residue: Count8)
    ensures (b + (residue - b % 8) % 8) % 8 == residue
  {
  }

  /** The window test modulo 8 is the test on true counts. */
  lemma WindowTest(s: Session, acked: nat, sent: nat)
    requires Counts(s, acked, sent)
    ensures CanSend(s) <==> sent - acked < s.window
  {
    Residues(sent, acked);
  }

  /** An N(R) is acceptable if and only if it stands for a count between what is acknowledged and
      what was sent, and then for one only. */
  lemma NrTest(s: Session, acked: nat, sent: nat, nr: Count8)
    requires Counts(s, acked, sent)
    ensures AcceptableNr(s, nr) <==> exists r :: acked <= r <= sent && r % 8 == nr
    ensures forall r, q :: acked <= r <= sent && acked <= q <= sent && r % 8 == q % 8 ==> r == q
  {
    var r := acked + (nr - s.va) % 8;
    Advance(acked, nr);
    Residues(sent, acked);
    if AcceptableNr(s, nr) {
      assert acked <= r <= sent && r % 8 == nr;
    }
    forall q | acked <= q <= sent && q % 8 == nr ensures AcceptableNr(s, nr) {
      Residues(q, acked);
    }
    forall p, q | acked <= p <= sent && acked <= q <= sent && p % 8 == q % 8 ensures p == q {
      Residues(p, acked);
      Residues(q, acked);
    }
  }

  /** Every send that the window test allows leaves fewer than eight payloads outstanding. */
  ghost predicate WindowSafe(s: Session) {
    forall acked: nat, sent: nat :: Counts(s, acked, sent) && CanSend(s) ==>
                                      Counts(s.(vs := NextSequence(s.vs)), acked, sent + 1)
  }

  lemma SendingCounts(s: Session, acked: nat, sent: nat)
    requires Counts(s, acked, sent) && CanSend(s)
    ensures Counts(s.(vs := NextSequence(s.vs)), acked, sent + 1) <==> sent - acked < 7
    ensures CanSend(s) <==> sent - acked < s.window
  {
    WindowTest(s, acked, sent);
    NextResidue(sent);
  }

  /** Three-bit numbering is safe, wherever the counters stand, if and only if the window is at most
      7. The code stores and applies windows up to 255. */
  lemma WindowExact(s: Session)
    ensures (forall va: Count8, vs: Count8 :: WindowSafe(s.(va := va, vs := vs))) <==> s.window <= 7
  {
    if s.window <= 7 {
      forall va: Count8, vs: Count8, acked: nat, sent: nat
        | var t := s.(va := va, vs := vs); Counts(t, acked, sent) && CanSend(t)
        ensures var t := s.(va := va, vs := vs); Counts(t.(vs := NextSequence(t.vs)), acked, sent + 1)
      {
        SendingCounts(s.(va := va, vs := vs), acked, sent);
      }
    } else {
      var t := s.(va := 0, vs := 7);
      assert Counts(t, 0, 7);
      WindowOverrun(t);
      assert !WindowSafe(s.(va := 0, vs := 7));
    }
  }

  /** With a window of 8 or more an eighth payload may follow seven unacknowledged ones. The counters
      then look as if nothing were outstanding, and acknowledging any one of the eight is refused. */
  lemma WindowOverrun(s: Session)
    requires s.window > 7 && s.va == 0 && s.vs == 7
    ensures CanSend(s) && !Counts(s.(vs := NextSequence(s.vs)), 0, 8)
    ensures var t := s.(vs := NextSequence(s.vs));
      t.vs == t.va && forall nr: Count8 :: AcceptableNr(t, nr) <==> nr == 0
  {
  }

  lemma NextResidue(n: nat)
    ensures NextSequence(n % 8) == (n + 1) % 8
  {
  }

  // ----- Packets and flows

  /** What a frame on the line stands for: a numbered payload or an acknowledgement, both with the
      true receive count of their sender; a request for a connection and its answer; a request to
      disconnect and its answer. */
  datatype Meaning =
    | Request
    | Response
    | Data(index: nat, payload: seq<Byte>, received: nat)
    | Ready(received: nat)
    | Farewell
    | Release

  datatype Packet = Packet(bytes: seq<Byte>, frame: Frame, meaning: Meaning)

  /** One direction: payloads sent and delivered, the count acknowledged back to the sender, the
      packets on the line, and the receive count last announced on it. */
  datatype Flow = Flow(
    sent: seq<seq<Byte>>,
    delivered: seq<seq<Byte>>,
    acked: nat,
    wire: seq<Packet>,
    announced: nat)

  const EMPTY: Flow := Flow([], [], 0, [], 0)

  /** The packet is a printed frame from this endpoint. */
  predicate Genuine(p: Packet, o: Options) {
    && Printable(p.frame) && p.bytes == Wire(p.frame)
    && p.frame.destination == Remote(o) && p.frame.source == Local(o)
  }

  /** The frame says, with its counts modulo 8, what the packet stands for. */
  predicate Truthful(p: Packet) {
    match p.meaning
    case Data(k, payload, q) =>
      && p.frame.information == payload && p.frame.control.Kind() == Information
      && p.frame.control.SendSequence() == k % 8 && p.frame.control.ReceiveSequence() == q % 8
    case Ready(q) =>
      p.frame.control.Kind() == Supervisory && p.frame.control.ReceiveSequence() == q % 8
    case Request => p.frame.control == SNRM
    case Response => p.frame.control == UA
    case Farewell => p.frame.control == DISC
    case Release => p.frame.control == UA
  }

  predicate Numbered(p: Packet) {
    p.meaning.Data? || p.meaning.Ready?
  }

  predicate AllHonest(wire: seq<Packet>, o: Options) {
    forall i :: 0 <= i < |wire| ==> Genuine(wire[i], o) && Truthful(wire[i])
  }

  /** Numbered packets in flight: payload numbers increase from n on, announced counts do not decrease
      from r on and stay below top. On a faithful line no number is missing and the last announcement
      is that of the last packet. Other packets do not matter here. */
  predicate InFlight(wire: seq<Packet>, sent: seq<seq<Byte>>, n: nat, r: nat, top: nat, last: nat, faithful: bool)
    decreases |wire|
  {
    if wire == [] then n <= |sent| && r <= top && (faithful ==> n == |sent| && r == last)
    else
      match wire[0].meaning
      case Data(k, payload, q) =>
        && n <= k < |sent| && payload == sent[k] && (faithful ==> k == n)
        && r <= q <= top && InFlight(wire[1..], sent, k + 1, q, top, last, faithful)
      case Ready(q) =>
        r <= q <= top && InFlight(wire[1..], sent, n, q, top, last, faithful)
      case _ => InFlight(wire[1..], sent, n, r, top, last, faithful)
  }

  lemma {:induction false} InFlightBounds(wire: seq<Packet>, sent: seq<seq<Byte>>, n: nat, r: nat, top: nat, last: nat, faithful: bool)
    requires InFlight(wire, sent, n, r, top, last, faithful)
    ensures n <= |sent| && r <= top
    decreases |wire|
  {
    if wire != [] {
      match wire[0].meaning
      case Data(k, _, q) => InFlightBounds(wire[1..], sent, k + 1, q, top, last, faithful);
      case Ready(q) => InFlightBounds(wire[1..], sent, n, q, top, last, faithful);
      case _ => InFlightBounds(wire[1..], sent, n, r, top, last, faithful);
    }
  }

  /** One more packet at the end of the line. */
  lemma {:induction false} InFlightSend(wire: seq<Packet>, sent: seq<seq<Byte>>, n: nat, r: nat, top: nat, last: nat, faithful: bool,
                                        p: Packet, sent': seq<seq<Byte>>)
    requires InFlight(wire, sent, n, r, top, last, faithful)
    requires if p.meaning.Data? then p.meaning.index == |sent| && sent' == sent + [p.meaning.payload] && p.meaning.received == top
             else p.meaning == Ready(top) && sent' == sent
    ensures InFlight(wire + [p], sent', n, r, top, top, faithful)
    decreases |wire|
  {
    if wire == [] {
      assert [p][1..] == [];
    } else {
      assert (wire + [p])[1..] == wire[1..] + [p];
      match wire[0].meaning
      case Data(k, _, q) => InFlightSend(wire[1..], sent, k + 1, q, top, last, faithful, p, sent');
      case Ready(q) => InFlightSend(wire[1..], sent, n, q, top, last, faithful, p, sent');
      case _ => InFlightSend(wire[1..], sent, n, r, top, last, faithful, p, sent');
    }
  }

  lemma {:induction false} InFlightOther(wire: seq<Packet>, sent: seq<seq<Byte>>, n: nat, r: nat, top: nat, last: nat, faithful: bool,
                                         p: Packet)
    requires InFlight(wire, sent, n, r, top, last, faithful) && !Numbered(p)
    ensures InFlight(wire + [p], sent, n, r, top, last, faithful)
    decreases |wire|
  {
    if wire == [] {
      assert [p][1..] == [];
    } else {
      assert (wire + [p])[1..] == wire[1..] + [p];
      match wire[0].meaning
      case Data(k, _, q) => InFlightOther(wire[1..], sent, k + 1, q, top, last, faithful, p);
      case Ready(q) => InFlightOther(wire[1..], sent, n, q, top, last, faithful, p);
      case _ => InFlightOther(wire[1..], sent, n, r, top, last, faithful, p);
    }
  }

  /** The receive count of the sender may grow. */
  lemma {:induction false} InFlightGrow(wire: seq<Packet>, sent: seq<seq<Byte>>, n: nat, r: nat, top: nat, last: nat, faithful: bool, top': nat)
    requires InFlight(wire, sent, n, r, top, last, faithful) && top <= top'
    ensures InFlight(wire, sent, n, r, top', last, faithful)
    decreases |wire|
  {
    if wire != [] {
      match wire[0].meaning
      case Data(k, _, q) => InFlightGrow(wire[1..], sent, k + 1, q, top, last, faithful, top');
      case Ready(q) => InFlightGrow(wire[1..], sent, n, q, top, last, faithful, top');
      case _ => InFlightGrow(wire[1..], sent, n, r, top, last, faithful, top');
    }
  }

  /** On a lossy line the lower bounds may lag behind. */
  lemma {:induction false} InFlightLag(wire: seq<Packet>, sent: seq<seq<Byte>>, n: nat, r: nat, top: nat, last: nat, n': nat, r': nat)
    requires InFlight(wire, sent, n, r, top, last, false) && n' <= n && r' <= r
    ensures InFlight(wire, sent, n', r', top, last, false)
    decreases |wire|
  {
    if wire != [] {
      match wire[0].meaning
      case Data(k, _, q) =>
      case Ready(q) => InFlightLag(wire[1..], sent, n, q, top, last, n', q);
      case _ => InFlightLag(wire[1..], sent, n, r, top, last, n', r');
    }
  }

  /** On a lossy line the next packet may be skipped. */
  lemma InFlightSkip(wire: seq<Packet>, sent: seq<seq<Byte>>, n: nat, r: nat, top: nat, last: nat)
    requires wire != [] && InFlight(wire, sent, n, r, top, last, false)
    ensures InFlight(wire[1..], sent, n, r, top, last, false)
  {
    match wire[0].meaning
    case Data(k, _, q) => InFlightLag(wire[1..], sent, k + 1, q, top, last, n, r);
    case Ready(q) => InFlightLag(wire[1..], sent, n, q, top, last, n, r);
    case _ =>
  }

  lemma WithoutLater<T>(s: seq<T>, i: nat)
    requires 0 < i < |s|
    ensures (s[..i] + s[i + 1..])[0] == s[0]
    ensures (s[..i] + s[i + 1..])[1..] == s[1..][..i - 1] + s[1..][i..]
  {
  }

  /** On a lossy line any packet may be lost. */
  lemma {:induction false} InFlightLose(wire: seq<Packet>, i: nat, sent: seq<seq<Byte>>, n: nat, r: nat, top: nat, last: nat)
    requires InFlight(wire, sent, n, r, top, last, false) && i < |wire|
    ensures InFlight(wire[..i] + wire[i + 1..], sent, n, r, top, last, false)
    decreases |wire|
  {
    if i == 0 {
      InFlightSkip(wire, sent, n, r, top, last);
      assert wire[..0] + wire[1..] == wire[1..];
    } else {
      WithoutLater(wire, i);
      match wire[0].meaning
      case Data(k, _, q) => InFlightLose(wire[1..], i - 1, sent, k + 1, q, top, last);
      case Ready(q) => InFlightLose(wire[1..], i - 1, sent, n, q, top, last);
      case _ => InFlightLose(wire[1..], i - 1, sent, n, r, top, last);
    }
  }

  // ----- Both directions, seen from one end

  /** One end, the other end, the flows out and back, and the flows of connections that are over.
      Receivers decode under these limits. */
  datatype Pair = Pair(near: Session, far: Session, out: Flow, back: Flow, past: seq<Flow>, rx: Limits)

  function Flip(p: Pair): Pair {
    Pair(p.far, p.near, p.back, p.out, p.past, p.rx)
  }

  /** The near end after a build call: if it succeeded, its packet is on the line. */
  function Built(p: Pair, r: Reply, frame: Frame, meaning: Meaning): Pair {
    if r.status != Ok then p.(near := r.session)
    else
      var packet := Packet(r.output, frame, meaning);
      var sent := if meaning.Data? then p.out.sent + [meaning.payload] else p.out.sent;
      var announced := if Numbered(packet) then |p.back.delivered| else p.out.announced;
      p.(near := r.session, out := p.out.(sent := sent, wire := p.out.wire + [packet], announced := announced))
  }

  function SendStep(p: Pair, payload: seq<Byte>, pollFinal: bool): Pair {
    Built(p, BuildInformation(p.near, payload, pollFinal),
          FrameTo(p.near.options, InformationControl(p.near.vs, p.near.vr, pollFinal), payload),
          Data(|p.out.sent|, payload, |p.back.delivered|))
  }

  function AcknowledgeStep(p: Pair, pollFinal: bool): Pair {
    Built(p, BuildReceiveReady(p.near, pollFinal),
          FrameTo(p.near.options, ReceiveReadyControl(p.near.vr, pollFinal), []),
          Ready(|p.back.delivered|))
  }

  /** The near end asks for a connection, with user information or without. */
  function ConnectStep(p: Pair, user: Option<seq<Byte>>): Pair {
    match user
    case None =>
      Built(p, Apply(p.near, ConnectRequest),
            FrameTo(p.near.options, SNRM,
                    ConnectInformation(p.near.options, p.near.options.capability != DefaultCapability(), [])), Request)
    case Some(u) =>
      Built(p, Apply(p.near, ConnectRequestWith(u)),
            FrameTo(p.near.options, SNRM, ConnectInformation(p.near.options, true, u)), Request)
  }

  /** A new connection begins with empty books; those of the last one are kept. */
  function Opened(p: Pair): Pair {
    p.(out := EMPTY.(wire := p.out.wire), back := EMPTY.(wire := p.back.wire), past := p.past + [p.out, p.back])
  }

  /** The near end answers a connection request, and with that a new connection begins. */
  function AnswerStep(p: Pair): Pair {
    var r := Apply(p.near, ConnectResponse);
    Built(if r.status == Ok then Opened(p) else p, r,
          FrameTo(ApplyAnswer(p.near).options, UA, AnswerInformation(p.near)), Response)
  }

  function DisconnectStep(p: Pair, user: seq<Byte>): Pair {
    Built(p, BuildDisconnectRequest(p.near, user), FrameTo(p.near.options, DISC, user), Farewell)
  }

  function ReleaseStep(p: Pair): Pair {
    Built(p, BuildDisconnectResponse(p.near), FrameTo(p.near.options, UA, []), Release)
  }

  /** What the near end makes of the bytes that arrive for the first packet on the line. */
  function Arrival(p: Pair, bytes: seq<Byte>): Option<Reply> {
    var decoded := DecodeFrame(bytes, p.rx);
    if decoded.Failure? then None else Some(Receive(p.near, decoded.value))
  }

  function TakeOff(f: Flow): Flow
    requires f.wire != []
  {
    f.(wire := f.wire[1..])
  }

  /** The near end after a reply to the first packet, or after its bytes were not understood. */
  function Heard(p: Pair, arrival: Option<Reply>): Pair
    requires p.back.wire != []
  {
    var taken := p.(back := TakeOff(p.back));
    match arrival
    case None => taken
    case Some(r) => Deliver(taken.(near := r.session), p.back.wire[0].meaning, r.status == Ok)
  }

  function DeliverStep(p: Pair, bytes: seq<Byte>): Pair
    requires p.back.wire != []
  {
    Heard(p, Arrival(p, bytes))
  }

  /** The books after a packet was accepted or refused. */
  function Deliver(p: Pair, meaning: Meaning, accepted: bool): Pair {
    if !accepted then p
    else
      match meaning
      case Data(_, payload, q) =>
        p.(back := p.back.(delivered := p.back.delivered + [payload]), out := p.out.(acked := q))
      case Ready(q) => p.(out := p.out.(acked := q))
      case _ => p
  }

  /** The near end's line loses a packet. */
  function LoseStep(p: Pair, i: nat): Pair
    requires i < |p.out.wire|
  {
    p.(out := p.out.(wire := p.out.wire[..i] + p.out.wire[i + 1..]))
  }

  // ----- What holds while a connection is up

  /** The numbers of one direction: counters, window and order of delivery. */
  predicate Numbers(x: Session, y: Session, f: Flow) {
    && x.vs == |f.sent| % 8 && x.va == f.acked % 8 && y.vr == |f.delivered| % 8
    && f.acked <= |f.delivered| <= |f.sent| <= f.acked + x.window && x.window <= 7
    && f.delivered <= f.sent
  }

  /** One direction: x sends on f, and hears from y on g. */
  predicate Half(x: Session, y: Session, f: Flow, g: Flow, faithful: bool) {
    && Numbers(x, y, f)
    && InFlight(f.wire, f.sent, |f.delivered|, g.acked, |g.delivered|, f.announced, faithful)
  }

  predicate Flows(p: Pair, faithful: bool) {
    Half(p.near, p.far, p.out, p.back, faithful) && Half(p.far, p.near, p.back, p.out, faithful)
  }

  /** Every packet on a line is a printed frame of the end that sent it and says what it stands for. */
  predicate Honest(p: Pair) {
    AllHonest(p.out.wire, p.near.options) && AllHonest(p.back.wire, p.far.options)
  }

  /** Sessions that have the counters and the window of others can take their place. */
  predicate SameNumbers(x: Session, y: Session) {
    y.vs == x.vs && y.vr == x.vr && y.va == x.va && y.window == x.window
  }

  lemma FlowsElsewhere(p: Pair, q: Pair, faithful: bool)
    requires Flows(p, faithful)
    requires q.out == p.out && q.back == p.back && SameNumbers(p.near, q.near) && SameNumbers(p.far, q.far)
    ensures Flows(q, faithful)
  {
  }

  lemma AllHonestSend(wire: seq<Packet>, p: Packet, o: Options)
    requires AllHonest(wire, o) && Genuine(p, o) && Truthful(p)
    ensures AllHonest(wire + [p], o)
  {
  }

  lemma AllHonestRest(wire: seq<Packet>, o: Options)
    requires wire != [] && AllHonest(wire, o)
    ensures AllHonest(wire[1..], o)
  {
  }

  lemma AllHonestLose(wire: seq<Packet>, i: nat, o: Options)
    requires AllHonest(wire, o) && i < |wire|
    ensures AllHonest(wire[..i] + wire[i + 1..], o)
  {
  }

  /** A built I-frame, without the details of its bytes. */
  lemma InformationBuilt(x: Session, payload: seq<Byte>, pollFinal: bool)
    ensures var r := BuildInformation(x, payload, pollFinal);
      var frame := FrameTo(x.options, InformationControl(x.vs, x.vr, pollFinal), payload);
      if r.status == Ok then
        x.phase == Connected && CanSend(x) && r.session == x.(vs := NextSequence(x.vs))
        && Printable(frame) && r.output == Wire(frame)
      else r.session == x
  {
  }

  lemma ReceiveReadyBuilt(x: Session, pollFinal: bool)
    ensures var r := BuildReceiveReady(x, pollFinal);
      var frame := FrameTo(x.options, ReceiveReadyControl(x.vr, pollFinal), []);
      r.session == x && (r.status == Ok ==> x.phase == Connected && Printable(frame) && r.output == Wire(frame))
  {
  }

  /** A packet that says where its sender stands. */
  predicate Current(p: Pair, meaning: Meaning) {
    && (meaning.Data? || meaning.Ready?) && meaning.received == |p.back.delivered|
    && (meaning.Data? ==> meaning.index == |p.out.sent|)
  }

  lemma NumbersSend(x: Session, x': Session, y: Session, f: Flow, payload: seq<Byte>)
    requires Numbers(x, y, f) && CanSend(x) && x' == x.(vs := NextSequence(x.vs))
    ensures Numbers(x', y, f.(sent := f.sent + [payload]))
  {
    WindowTest(x, f.acked, |f.sent|);
    NextResidue(|f.sent|);
  }

  /** A numbered packet that was built keeps both directions in order. */
  lemma BuiltKeeps(p: Pair, r: Reply, frame: Frame, meaning: Meaning, faithful: bool)
    requires Flows(p, faithful)
    requires r.status != Ok ==> r.session == p.near
    requires r.status == Ok ==>
      && Current(p, meaning)
      && (if meaning.Data? then CanSend(p.near) && r.session == p.near.(vs := NextSequence(p.near.vs))
          else r.session == p.near)
    ensures Flows(Built(p, r, frame, meaning), faithful)
  {
    if r.status == Ok {
      var packet := Packet(r.output, frame, meaning);
      InFlightSend(p.out.wire, p.out.sent, |p.out.delivered|, p.back.acked, |p.back.delivered|, p.out.announced,
                   faithful, packet, Built(p, r, frame, meaning).out.sent);
      if meaning.Data? {
        NumbersSend(p.near, r.session, p.far, p.out, meaning.payload);
      }
    }
  }

  /** So does any other packet, as long as the counters stay. */
  lemma OtherKeeps(p: Pair, r: Reply, frame: Frame, meaning: Meaning, faithful: bool)
    requires Flows(p, faithful) && !meaning.Data? && !meaning.Ready?
    requires SameNumbers(p.near, r.session)
    ensures Flows(Built(p, r, frame, meaning), faithful)
  {
    if r.status == Ok {
      InFlightOther(p.out.wire, p.out.sent, |p.out.delivered|, p.back.acked, |p.back.delivered|, p.out.announced,
                    faithful, Packet(r.output, frame, meaning));
    }
  }

  lemma BuiltHonest(p: Pair, r: Reply, frame: Frame, meaning: Meaning)
    requires Honest(p) && SameEndpoint(p.near, r.session)
    requires r.status == Ok ==>
      Genuine(Packet(r.output, frame, meaning), p.near.options) && Truthful(Packet(r.output, frame, meaning))
    ensures Honest(Built(p, r, frame, meaning))
  {
    if r.status == Ok {
      AllHonestSend(p.out.wire, Packet(r.output, frame, meaning), p.near.options);
    }
  }

  // ----- Arrivals

  /** On a faithful line the bytes arrive as they were sent; elsewhere they may be damaged. */
  ghost predicate MayArrive(packet: Packet, bytes: seq<Byte>, faithful: bool) {
    bytes == packet.bytes ||
    (!faithful && |bytes| == |packet.bytes| && Detectable(Xor(BitsOf(packet.bytes), BitsOf(bytes))))
  }

  /** What arrives is the frame that was sent, or nothing. */
  lemma ArrivesOrNot(packet: Packet, o: Options, bytes: seq<Byte>, rx: Limits, faithful: bool)
    requires Genuine(packet, o) && MayArrive(packet, bytes, faithful)
    ensures DecodeFrame(bytes, rx).Failure? || DecodeFrame(bytes, rx) == Success(packet.frame)
    ensures bytes == packet.bytes && rx == DefaultLimits() ==> DecodeFrame(bytes, rx) == Success(packet.frame)
  {
    DecodeWire(packet.frame, rx);
    DefaultsAdmit(packet.frame);
    if bytes != packet.bytes {
      DamageRejected(packet.bytes, bytes, DefaultLimits(), rx);
    }
  }

  /** A payload is accepted if and only if it is the next one, although only its number modulo 8 is
      compared; and the acknowledgement in it is always good. */
  lemma ReceiveNumbered(y: Session, frame: Frame, k: nat, q: nat, delivered: nat, acked: nat, sent: nat)
    requires y.phase == Connected
    requires frame.destination == Local(y.options) && frame.source == Remote(y.options)
    requires frame.control.Kind() == Information
    requires frame.control.SendSequence() == k % 8 && frame.control.ReceiveSequence() == q % 8
    requires y.vr == delivered % 8 && delivered <= k < delivered + 8
    requires Counts(y, acked, sent) && acked <= q <= sent
    ensures Receive(y, frame) ==
      if k == delivered then Answered(y.(va := q % 8, vr := NextSequence(y.vr)), Ok) else Answered(y, InvalidControlField)
  {
    NrTest(y, acked, sent, q % 8);
    NextOfEight(k, delivered);
    NumberedReply(y, frame, k == delivered);
  }

  lemma NextOfEight(k: nat, n: nat)
    requires n <= k < n + 8
    ensures k % 8 == n % 8 <==> k == n
  {
    Residues(k, n);
  }

  lemma NumberedReply(y: Session, frame: Frame, next: bool)
    requires y.phase == Connected
    requires frame.destination == Local(y.options) && frame.source == Remote(y.options)
    requires frame.control.Kind() == Information && AcceptableNr(y, frame.control.ReceiveSequence())
    requires next <==> frame.control.SendSequence() == y.vr
    ensures Receive(y, frame) ==
      if next then Answered(y.(va := frame.control.ReceiveSequence(), vr := NextSequence(y.vr)), Ok)
      else Answered(y, InvalidControlField)
  {
  }

  lemma ReceiveReady(y: Session, frame: Frame, q: nat, acked: nat, sent: nat)
    requires y.phase == Connected
    requires frame.destination == Local(y.options) && frame.source == Remote(y.options)
    requires frame.control.Kind() == Supervisory && frame.control.ReceiveSequence() == q % 8
    requires Counts(y, acked, sent) && acked <= q <= sent
    ensures Receive(y, frame) == Answered(y.(va := q % 8), Ok)
  {
    NrTest(y, acked, sent, q % 8);
  }

  lemma ReceiveUnconnected(y: Session, frame: Frame)
    requires y.phase != Connected && frame.control.Kind() != Unnumbered
    ensures Receive(y, frame).status != Ok && Receive(y, frame).session == y
  {
  }

  /** A packet that is refused or lost on a lossy line, and one without a number on any line. */
  lemma RefusedKeeps(p: Pair, faithful: bool)
    requires Flows(p, faithful) && p.back.wire != [] && (faithful ==> !Numbered(p.back.wire[0]))
    ensures Flows(p.(back := TakeOff(p.back)), faithful)
  {
    if !faithful {
      InFlightSkip(p.back.wire, p.back.sent, |p.back.delivered|, p.out.acked, |p.out.delivered|, p.back.announced);
    }
  }

  /** The near end after it accepted a numbered packet that acknowledges q. */
  function Advanced(p: Pair, q: nat, delivered: seq<seq<Byte>>, vr: Count8): Pair
    requires p.back.wire != []
  {
    p.(near := p.near.(va := q % 8, vr := vr), out := p.out.(acked := q), back := TakeOff(p.back).(delivered := delivered))
  }

  lemma ReadyKeeps(p: Pair, q: nat, faithful: bool)
    requires Flows(p, faithful) && p.back.wire != [] && p.back.wire[0].meaning == Ready(q)
    ensures Flows(Advanced(p, q, p.back.delivered, p.near.vr), faithful)
  {
  }

  lemma NumbersDeliver(x: Session, y: Session, f: Flow, payload: seq<Byte>, y': Session)
    requires Numbers(x, y, f) && |f.delivered| < |f.sent| && payload == f.sent[|f.delivered|]
    requires y'.vr == NextSequence(y.vr)
    ensures Numbers(x, y', f.(delivered := f.delivered + [payload]))
  {
    NextResidue(|f.delivered|);
    assert f.sent[..|f.delivered| + 1] == f.delivered + [payload];
  }

  lemma DataKeeps(p: Pair, payload: seq<Byte>, q: nat, faithful: bool)
    requires Flows(p, faithful) && p.back.wire != []
    requires p.back.wire[0].meaning == Data(|p.back.delivered|, payload, q)
    ensures Flows(Advanced(p, q, p.back.delivered + [payload], NextSequence(p.near.vr)), faithful)
  {
    var a := Advanced(p, q, p.back.delivered + [payload], NextSequence(p.near.vr));
    DataBack(p, a, payload, q, faithful);
    DataOut(p, a, payload, q, faithful);
  }

  /** The direction that the payload came on. */
  lemma DataBack(p: Pair, a: Pair, payload: seq<Byte>, q: nat, faithful: bool)
    requires Flows(p, faithful) && p.back.wire != []
    requires p.back.wire[0].meaning == Data(|p.back.delivered|, payload, q)
    requires a == Advanced(p, q, p.back.delivered + [payload], NextSequence(p.near.vr))
    ensures Half(a.far, a.near, a.back, a.out, faithful)
  {
    NumbersDeliver(p.far, p.near, TakeOff(p.back), payload, a.near);
  }

  /** The direction whose payloads it acknowledges. */
  lemma DataOut(p: Pair, a: Pair, payload: seq<Byte>, q: nat, faithful: bool)
    requires Flows(p, faithful) && p.back.wire != []
    requires p.back.wire[0].meaning == Data(|p.back.delivered|, payload, q)
    requires a == Advanced(p, q, p.back.delivered + [payload], NextSequence(p.near.vr))
    ensures Half(a.near, a.far, a.out, a.back, faithful)
  {
    var f, g := p.back, p.out;
    InFlightGrow(g.wire, g.sent, |g.delivered|, f.acked, |f.delivered|, g.announced, faithful, |f.delivered| + 1);
  }

  /** The near end hears the far end's address as its peer. */
  predicate Peers(p: Pair) {
    Opposite(p.near.options, p.far.options)
  }

  /** The first packet on the line is a payload or an acknowledgement. */
  predicate NumberedFirst(wire: seq<Packet>) {
    wire != [] && Numbered(wire[0])
  }

  /** What a connected end answers to the first packet, if its bytes arrive whole. */
  lemma NumberedArrival(p: Pair, faithful: bool)
    requires Flows(p, faithful) && Honest(p) && Peers(p) && NumberedFirst(p.back.wire) && p.near.phase == Connected
    ensures var packet := p.back.wire[0];
      Receive(p.near, packet.frame) ==
        match packet.meaning
        case Data(k, payload, q) =>
          if k == |p.back.delivered| then Answered(p.near.(va := q % 8, vr := NextSequence(p.near.vr)), Ok)
          else Answered(p.near, InvalidControlField)
        case Ready(q) => Answered(p.near.(va := q % 8), Ok)
        case _ => Receive(p.near, packet.frame)
    ensures faithful && p.back.wire[0].meaning.Data? ==> p.back.wire[0].meaning.index == |p.back.delivered|
  {
    var packet, f, g := p.back.wire[0], p.back, p.out;
    match packet.meaning
    case Data(k, _, q) =>
      ReceiveNumbered(p.near, packet.frame, k, q, |f.delivered|, g.acked, |g.sent|);
    case Ready(q) =>
      ReceiveReady(p.near, packet.frame, q, g.acked, |g.sent|);
  }

  lemma HeardKeeps(p: Pair, arrival: Option<Reply>, faithful: bool)
    requires Flows(p, faithful) && Honest(p) && Peers(p) && NumberedFirst(p.back.wire)
    requires arrival.None? || arrival == Some(Receive(p.near, p.back.wire[0].frame))
    requires faithful ==> arrival.Some? && p.near.phase == Connected
    ensures Flows(Heard(p, arrival), faithful)
    ensures faithful ==> arrival.value.status == Ok
  {
    var packet := p.back.wire[0];
    if arrival.None? {
      RefusedKeeps(p, faithful);
    } else if p.near.phase != Connected {
      assert Truthful(packet);
      ReceiveUnconnected(p.near, packet.frame);
      RefusedKeeps(p, faithful);
    } else {
      NumberedArrival(p, faithful);
      match packet.meaning {
        case Data(k, payload, q) =>
          if k == |p.back.delivered| {
            DataKeeps(p, payload, q, faithful);
          } else {
            RefusedKeeps(p, faithful);
          }
        case Ready(q) =>
          ReadyKeeps(p, q, faithful);
      }
    }
  }

  // ----- Losses

  lemma LoseFlows(p: Pair, i: nat)
    requires Flows(p, false) && i < |p.out.wire|
    ensures Flows(LoseStep(p, i), false)
  {
    InFlightLose(p.out.wire, i, p.out.sent, |p.out.delivered|, p.back.acked, |p.back.delivered|, p.out.announced);
  }
}
