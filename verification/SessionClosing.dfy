/** How connections end: the disconnect exchange, the refusal of a malformed request, and the two
    ways in which the pending flags and the waiting state go wrong (src/hdlc/hdlc_session.cpp). */
module SessionClosing {
  import opened Types
  import opened Bits
  import opened ControlField
  import opened Codec
  import opened Negotiation
  import opened SessionModel
  import opened SessionNegotiation
  import opened SessionLimits

  /** No connection, no counts, and no disconnect still to be answered. */
  predicate AtRest(s: Session) {
    s.phase == Disconnected && s.vs == 0 && s.vr == 0 && s.va == 0 && !s.disconnectPending
  }

  lemma BareFrameBuilt(o: Options, control: HdlcControl)
    requires AdmitsBare(o)
    ensures BuildFrame(o, control, []).Success?
  {
    RoomExact(o, control, []);
  }

  // ----- The disconnect exchange

  lemma ReceiveDisconnectRequest(x: Options, y: Session, user: seq<Byte>)
    requires Opposite(x, y.options) && y.phase == Connected
    ensures Receive(y, FrameTo(x, DISC, user)) == Answered(y.(userInformation := user, disconnectPending := true), Ok)
  {
    UnnumberedFields();
  }

  lemma ReceiveDisconnectResponse(x: Session, y: Options)
    requires Opposite(x.options, y) && x.phase == AwaitingDisconnect
    ensures var r := Receive(x, FrameTo(y, UA, []));
      r.status == Ok && SameLimits(x, r.session) && AtRest(r.session.(disconnectPending := false))
      && r.session.disconnectPending == x.disconnectPending
  {
    UnnumberedFields();
  }

  /** The peer's answer, and what the requester makes of it. */
  ghost predicate Released(waiting: Session, told: Session) {
    var response := BuildDisconnectResponse(told);
    && response.status == Ok && AtRest(response.session) && SameLimits(told, response.session)
    && var ua := DecodeFrame(response.output, DefaultLimits());
    && ua.Success?
    && var done := Receive(waiting, ua.value);
    && done.status == Ok && done.session.phase == Disconnected && SameLimits(waiting, done.session)
    && done.session.vs == 0 && done.session.vr == 0 && done.session.va == 0
    && done.session.disconnectPending == waiting.disconnectPending
  }

  lemma ResponseReleases(waiting: Session, told: Session)
    requires Opposite(waiting.options, told.options) && waiting.phase == AwaitingDisconnect && told.disconnectPending
    requires AdmitsBare(told.options)
    ensures Released(waiting, told)
  {
    BareFrameBuilt(told.options, UA);
    BuiltDecodes(told.options, UA, []);
    ReceiveDisconnectResponse(waiting, told.options);
  }

  /** The whole exchange that a built request starts. */
  ghost predicate Closes(request: Reply, y: Session, user: seq<Byte>) {
    var disc := DecodeFrame(request.output, DefaultLimits());
    && disc.Success?
    && var told := Receive(y, disc.value);
    && told.status == Ok && told.session.userInformation == user
    && Released(request.session, told.session)
  }

  /** When a DISC is built and reaches the peer as bytes, the peer accepts it with the user
      information in it; its UA is then built and, as bytes, releases the requester. Both end
      disconnected with their counters and their limits as for a new connection. */
  lemma DisconnectAgrees(x: Session, y: Session, user: seq<Byte>)
    requires Opposite(x.options, y.options) && x.phase == Connected && y.phase == Connected
    requires BuildDisconnectRequest(x, user).status == Ok
    requires AdmitsBare(y.options)
    ensures Closes(BuildDisconnectRequest(x, user), y, user)
  {
    BuiltDecodes(x.options, DISC, user);
    ReceiveDisconnectRequest(x.options, y, user);
    ResponseReleases(x.(phase := AwaitingDisconnect), y.(userInformation := user, disconnectPending := true));
  }

  // ----- Refusing a malformed request

  lemma RequestRefused(c: Options, s: Session, information: seq<Byte>)
    requires Facing(c, s.options) && s.phase == Disconnected && ParseField(information).Failure?
    ensures var r := Receive(s, FrameTo(c, SNRM, information));
      r.status == ParseField(information).status && r.session.dmPending && r.session.options == s.options
  {
    UnnumberedFields();
    assert Receive(s, FrameTo(c, SNRM, information)) == ReceiveSnrm(s, information);
  }

  lemma ReceiveDm(c: Session, s: Options)
    requires Opposite(c.options, s)
    ensures Receive(c, FrameTo(s, DM, [])) == Answered(Cleared(c).(phase := Disconnected), Ok)
  {
    UnnumberedFields();
  }

  /** A DM that is owed is built once and releases the waiting client. */
  ghost predicate Dismisses(c: Session, refused: Session) {
    var answer := BuildDmResponse(refused);
    var dm := DecodeFrame(answer.output, DefaultLimits());
    && answer.status == Ok && answer.session.phase == refused.phase && BuildDmResponse(answer.session).status == UnsupportedFrame
    && dm.Success? && Receive(c, dm.value).status == Ok
    && Receive(c, dm.value).session.phase == Disconnected
  }

  lemma DmDismisses(c: Session, s: Session)
    requires Opposite(c.options, s.options) && s.dmPending
    requires AdmitsBare(s.options)
    ensures Dismisses(c, s)
  {
    BareFrameBuilt(s.options, DM);
    BuiltDecodes(s.options, DM, []);
    ReceiveDm(c, s.options);
  }

  /** A connection request whose parameters cannot be parsed is refused: the server reports why and
      owes exactly one DM, which, as bytes, releases the waiting client for another attempt. */
  lemma RefusalReleases(c: Session, s: Session, information: seq<Byte>)
    requires Facing(c.options, s.options) && c.phase == AwaitingConnection && s.phase == Disconnected
    requires ParseField(information).Failure?
    requires AdmitsBare(s.options)
    ensures var refused := Receive(s, FrameTo(c.options, SNRM, information));
      refused.status == ParseField(information).status && Dismisses(c, refused.session)
  {
    RequestRefused(c.options, s, information);
    DmDismisses(c, Receive(s, FrameTo(c.options, SNRM, information)).session);
  }

  // ----- A refusal that outlives its request

  /** A pending DM belongs to a request that was refused, so that there is no connection. */
  predicate RefusedWhileDown(s: Session) {
    s.dmPending ==> s.phase == Disconnected
  }

  /** A pending DM survives into a connection exactly when the server is asked to answer a later
      request, and can, before it sends the DM. */
  lemma DmPendingStep(s: Session, c: Call)
    requires Consistent(s) && RefusedWhileDown(s)
    ensures RefusedWhileDown(Apply(s, c).session) <==>
      !(s.dmPending && c.ConnectResponse? && MayAnswer(s))
  {
    match c
    case ConnectResponse =>
      DmAtAnswer(s);
      AnswerBuilt(s);
    case ReceiveFrame(frame) => DmHeard(s, frame);
    case _ =>
  }

  lemma DmAtAnswer(s: Session)
    ensures var r := BuildConnectResponse(s);
      r.session.dmPending == s.dmPending && (if r.status == Ok then r.session.phase == Connected else r.session.phase == s.phase)
  {
    AnswerPhases(s);
  }

  /** Answering a connection request leaves what else is owed, and brings the session up or nowhere. */
  lemma AnswerPhases(s: Session)
    ensures var r := BuildConnectResponse(s);
      && r.session.dmPending == s.dmPending && r.session.disconnectPending == s.disconnectPending
      && (if r.status == Ok then r.session.phase == Connected else r.session.phase == s.phase)
  {
    if s.options.role == Server && s.connectPending {
      AppliedPhases(s);
      FinishPhases(ApplyAnswer(s), BuildFrame(ApplyAnswer(s).options, UA, AnswerInformation(s)));
    }
  }

  lemma AppliedPhases(s: Session)
    ensures var t := ApplyAnswer(s);
      t.phase == s.phase && t.dmPending == s.dmPending && t.disconnectPending == s.disconnectPending
  {
  }

  lemma FinishPhases(t: Session, built: Result<seq<Byte>>)
    ensures var r := FinishConnect(t, built);
      && r.session.dmPending == t.dmPending && r.session.disconnectPending == t.disconnectPending
      && (if built.Success? then r.status == Ok && r.session.phase == Connected else r.session == t && r.status == built.status)
  {
  }

  lemma DmHeard(s: Session, frame: Frame)
    requires RefusedWhileDown(s) && Consistent(s)
    ensures RefusedWhileDown(Receive(s, frame).session)
  {
    if FromPeer(s, frame) && frame.control.Kind() == Unnumbered {
      DmUnnumbered(s, frame);
    }
  }

  lemma DmUnnumbered(s: Session, frame: Frame)
    requires RefusedWhileDown(s) && Consistent(s)
    ensures RefusedWhileDown(ReceiveUnnumbered(s, frame).session)
  {
  }

  /** The server answers with a UA and then still with the DM, which takes the client away. */
  ghost predicate DismissesLate(asked: Session, c: Session) {
    var up := BuildConnectResponse(asked);
    var late := BuildDmResponse(up.session);
    var dm := DecodeFrame(late.output, DefaultLimits());
    && up.status == Ok && up.session.phase == Connected && late.status == Ok && late.session.phase == Connected
    && dm.Success? && Receive(c, dm.value).status == Ok && Receive(c, dm.value).session.phase == Disconnected
  }

  /** It happens: a malformed request and then a good one reach the server, and after its UA the
      server still sends the DM that it owes for the first. The client disconnects while the server
      stays connected. */
  lemma StaleDm(c: Session, s: Session, bad: Frame, snrm: Frame)
    requires Opposite(c.options, s.options) && s.options.role == Server && s.phase == Disconnected
    requires FromPeer(s, bad) && bad.control == SNRM && ParseField(bad.information).Failure?
    requires FromPeer(s, snrm) && snrm.control == SNRM && snrm.information == []
    requires AdmitsBare(s.options)
    ensures DismissesLate(Receive(Receive(s, bad).session, snrm).session, c)
  {
    RefusedLater(s, bad);
    var refused := Receive(s, bad).session;
    AskedAgain(refused, snrm);
    UpThenDm(Receive(refused, snrm).session, c);
  }

  lemma RefusedLater(s: Session, bad: Frame)
    requires s.options.role == Server && s.phase == Disconnected
    requires FromPeer(s, bad) && bad.control == SNRM && ParseField(bad.information).Failure?
    ensures var t := Receive(s, bad).session;
      t.dmPending && t.phase == Disconnected && t.options == s.options
  {
    UnnumberedFields();
    assert Receive(s, bad) == ReceiveSnrm(s, bad.information);
  }

  lemma UpThenDm(asked: Session, c: Session)
    requires Opposite(c.options, asked.options) && asked.options.role == Server
    requires asked.connectPending && asked.dmPending && !asked.pending.active
    requires AdmitsBare(asked.options)
    ensures DismissesLate(asked, c)
  {
    BareFrameBuilt(asked.options, UA);
    AnsweredBare(asked);
    DmDismisses(c, BuildConnectResponse(asked).session);
  }

  lemma AnsweredBare(asked: Session)
    requires asked.options.role == Server && asked.connectPending && !asked.pending.active
    requires BuildFrame(asked.options, UA, []).Success?
    ensures var up := BuildConnectResponse(asked);
      up.status == Ok && up.session.phase == Connected && up.session.dmPending == asked.dmPending
      && up.session.options == asked.options
  {
  }

  // ----- A disconnect request that outlives its connection

  /** A pending disconnect belongs to the connection that is up. */
  predicate PendingWhileUp(s: Session) {
    s.disconnectPending ==> s.phase == Connected
  }

  /** The calls that leave a connection without answering a pending disconnect. */
  predicate Abandons(s: Session, c: Call) {
    Gets(s, c, Dm) || (c.DisconnectRequest? && MayDisconnect(s, c.user))
  }

  predicate MayDisconnect(s: Session, user: seq<Byte>) {
    s.phase == Connected && Carries(s.options, |user|)
  }

  lemma DisconnectBuilt(s: Session, user: seq<Byte>)
    ensures BuildDisconnectRequest(s, user).status == Ok <==> MayDisconnect(s, user)
  {
    BuildExact(s.options, DISC, user);
  }

  /** A pending disconnect stays with its connection exactly until a DM arrives or the side that
      owes the answer asks for a disconnect itself, with user information that fits. */
  lemma DisconnectPendingStep(s: Session, c: Call)
    requires PendingWhileUp(s)
    ensures PendingWhileUp(Apply(s, c).session) <==> !(s.disconnectPending && Abandons(s, c))
  {
    match c
    case ReceiveFrame(frame) => HeardPhases(s, frame);
    case ConnectResponse => AnswerPhases(s);
    case DisconnectRequest(user) => DisconnectBuilt(s, user);
    case _ =>
  }

  lemma HeardPhases(s: Session, frame: Frame)
    requires PendingWhileUp(s)
    ensures PendingWhileUp(Receive(s, frame).session) <==> !(s.disconnectPending && Gets(s, ReceiveFrame(frame), Dm))
  {
    if FromPeer(s, frame) && frame.control.Kind() == Unnumbered {
      UnnumberedPhases(s, frame);
    }
  }

  lemma UnnumberedPhases(s: Session, frame: Frame)
    ensures var t, kind := ReceiveUnnumbered(s, frame).session, frame.control.UnnumberedCommand();
      && (t.disconnectPending != s.disconnectPending ==> kind == Success(Disc) && s.phase == Connected && t.disconnectPending)
      && (kind == Success(Disc) ==> t.phase == s.phase)
      && (kind == Success(Dm) ==> t.phase == Disconnected)
      && (s.phase == Connected && t.phase != Connected ==> kind == Success(Dm))
  {
    match frame.control.UnnumberedCommand()
    case Success(Snrm) =>
    case _ =>
  }

  /** A request left over from an earlier connection ends the next one: the server owes a disconnect
      answer, a DM arrives, the client connects again, and the stale answer is still built with Ok
      and disconnects, although nobody asked for it in this connection. */
  lemma StaleDisconnect(s: Session, dm: Frame, snrm: Frame)
    requires s.options.role == Server && s.phase == Connected && s.disconnectPending
    requires FromPeer(s, dm) && dm.control == DM && FromPeer(s, snrm) && snrm.control == SNRM && snrm.information == []
    requires AdmitsBare(s.options)
    ensures EndsUnasked(Receive(Receive(s, dm).session, snrm).session)
  {
    Dropped(s, dm);
    var down := Cleared(s).(phase := Disconnected);
    AskedAgain(down, snrm);
    UpAgain(Receive(down, snrm).session);
  }

  /** The server answers the request for a connection, and then also a request to disconnect. */
  predicate EndsUnasked(asked: Session) {
    var up := BuildConnectResponse(asked);
    && up.status == Ok && up.session.phase == Connected
    && BuildDisconnectResponse(up.session).status == Ok && BuildDisconnectResponse(up.session).session.phase == Disconnected
  }

  lemma Dropped(s: Session, dm: Frame)
    requires FromPeer(s, dm) && dm.control == DM
    ensures Receive(s, dm) == Answered(Cleared(s).(phase := Disconnected), Ok)
  {
    UnnumberedFields();
  }

  lemma AskedAgain(s: Session, snrm: Frame)
    requires s.options.role == Server && s.phase == Disconnected
    requires FromPeer(s, snrm) && snrm.control == SNRM && snrm.information == []
    ensures var t := Receive(s, snrm).session;
      && t.connectPending && !t.pending.active && t.options == s.options
      && t.disconnectPending == s.disconnectPending && t.dmPending == s.dmPending
  {
    UnnumberedFields();
    assert Receive(s, snrm) == ReceiveSnrm(s, []);
  }

  lemma UpAgain(s: Session)
    requires s.options.role == Server && s.connectPending && s.disconnectPending && !s.pending.active
    requires AdmitsBare(s.options)
    ensures EndsUnasked(s)
  {
    BareFrameBuilt(s.options, UA);
  }

  // ----- Waiting that never ends

  /** Waiting for an answer, and owing none. */
  predicate Stuck(s: Session) {
    (s.phase == AwaitingConnection || s.phase == AwaitingDisconnect)
    && !s.connectPending && !s.disconnectPending && !s.dmPending
  }

  /** A waiting session is released by a UA or a DM from its peer and by nothing else; until then
      no call builds anything or changes it. In particular a request cannot be built again. */
  lemma StuckStep(s: Session, c: Call)
    requires Stuck(s)
    ensures Apply(s, c).status == Ok <==> Gets(s, c, Ua) || Gets(s, c, Dm)
    ensures Apply(s, c).status != Ok ==> Apply(s, c).session == s && Apply(s, c).output == []
  {
    match c
    case ReceiveFrame(frame) =>
      if FromPeer(s, frame) && frame.control.Kind() == Unnumbered {
        StuckHears(s, frame);
      }
    case _ =>
  }

  lemma StuckHears(s: Session, frame: Frame)
    requires Stuck(s)
    ensures var r, kind := ReceiveUnnumbered(s, frame), frame.control.UnnumberedCommand();
      && (r.status == Ok <==> kind == Success(Ua) || kind == Success(Dm))
      && (r.status != Ok ==> r.session == s && r.output == [])
  {
  }

  /** A server without a connection that owes nothing. */
  predicate Listening(s: Session) {
    s.options.role == Server && s.phase == Disconnected && !s.connectPending && !s.disconnectPending && !s.dmPending
  }

  /** A listening server is moved by an SNRM from its peer only (a DM leaves it where it is). */
  lemma ListeningStep(s: Session, c: Call)
    requires Listening(s) && !Gets(s, c, Snrm) && !Gets(s, c, Dm)
    ensures Apply(s, c).status != Ok && Apply(s, c).session == s && Apply(s, c).output == []
  {
    match c
    case ReceiveFrame(frame) =>
      if FromPeer(s, frame) && frame.control.Kind() == Unnumbered {
        ListeningHears(s, frame);
      }
    case _ =>
  }

  lemma ListeningHears(s: Session, frame: Frame)
    requires Listening(s)
    requires frame.control.UnnumberedCommand() != Success(Snrm) && frame.control.UnnumberedCommand() != Success(Dm)
    ensures Answered(s, ReceiveUnnumbered(s, frame).status) == ReceiveUnnumbered(s, frame)
    ensures ReceiveUnnumbered(s, frame).status != Ok
  {
  }

  /** When both sides have asked to disconnect, each refuses the other's request and both wait. */
  lemma CrossedRequests(x: Session, y: Session, user: seq<Byte>)
    requires Opposite(x.options, y.options) && Stuck(y)
    requires x.phase == Connected && BuildDisconnectRequest(x, user).status == Ok
    ensures var disc := DecodeFrame(BuildDisconnectRequest(x, user).output, DefaultLimits());
      disc.Success? && Receive(y, disc.value) == Answered(y, UnsupportedFrame)
  {
    BuiltDecodes(x.options, DISC, user);
    DisconnectRefused(x.options, y, user);
  }

  lemma DisconnectRefused(x: Options, y: Session, user: seq<Byte>)
    requires Opposite(x, y.options) && y.phase != Connected
    ensures Receive(y, FrameTo(x, DISC, user)) == Answered(y, UnsupportedFrame)
  {
    UnnumberedFields();
  }

  /** Both sides, and every byte string that may still arrive. */
  datatype Both = Both(first: Session, second: Session, lines: set<seq<Byte>>)

  datatype Move = Move(byFirst: bool, call: Call)

  /** Only what is on the lines can be received; it may be lost, repeated or reordered. */
  ghost predicate Arrivable(b: Both, m: Move) {
    m.call.ReceiveFrame? ==> exists bytes :: bytes in b.lines && DecodeFrame(bytes, DefaultLimits()) == Success(m.call.frame)
  }

  function Step(b: Both, m: Move): Both {
    var r := Apply(if m.byFirst then b.first else b.second, m.call);
    var lines := if r.output == [] then b.lines else b.lines + {r.output};
    if m.byFirst then Both(r.session, b.second, lines) else Both(b.first, r.session, lines)
  }

  ghost predicate AllArrivable(b: Both, moves: seq<Move>)
    decreases |moves|
  {
    moves == [] || (Arrivable(b, moves[0]) && AllArrivable(Step(b, moves[0]), moves[1..]))
  }

  function Steps(b: Both, moves: seq<Move>): Both
    decreases |moves|
  {
    if moves == [] then b else Steps(Step(b, moves[0]), moves[1..])
  }

  /** Nothing on the lines opens, confirms or refuses a connection. */
  ghost predicate NoRelease(lines: set<seq<Byte>>) {
    forall bytes :: bytes in lines && DecodeFrame(bytes, DefaultLimits()).Success? ==>
      DecodeFrame(bytes, DefaultLimits()).value.control.UnnumberedCommand()
        !in {Success(Snrm), Success(Ua), Success(Dm)}
  }

  predicate Still(s: Session) {
    Stuck(s) || Listening(s)
  }

  /** Sessions that wait with nothing to hear wait forever: whatever either of them calls or hears,
      nothing more is sent and neither of them moves. This is so after disconnect requests that
      crossed, and after an SNRM or the answer to a client's DISC was lost, because the code has no
      call that repeats a request or gives it up. */
  lemma {:induction false} WaitingForever(b: Both, moves: seq<Move>)
    requires Still(b.first) && Still(b.second) && NoRelease(b.lines)
    requires AllArrivable(b, moves)
    ensures Steps(b, moves) == b
    decreases |moves|
  {
    if moves != [] {
      var m := moves[0];
      var s := if m.byFirst then b.first else b.second;
      if Stuck(s) {
        StuckStep(s, m.call);
      } else {
        ListeningStep(s, m.call);
      }
      assert Step(b, m) == b;
      WaitingForever(b, moves[1..]);
    }
  }
}
