/** Which states of two linked sessions a run can lead to, and what no run changes. */
module LinkPaths {
  import opened Types
  import opened Bits
  import opened Codec
  import opened Negotiation
  import opened SessionModel
  import opened Link
  import opened LinkRuns

  /** Some run leads from one state to the other. */
  ghost predicate Reaches(p: Pair, q: Pair, faithful: bool) {
    exists actions :: Possible(p, actions, faithful) && RunAll(p, actions, faithful) == q
  }

  lemma ReachesItself(p: Pair, faithful: bool)
    ensures Reaches(p, p, faithful)
  {
    assert Possible(p, [], faithful) && RunAll(p, [], faithful) == p;
  }

  lemma ReachesAfter(p: Pair, a: Action, q: Pair, faithful: bool)
    requires Enabled(p, a, faithful) && Reaches(Do(p, a, faithful), q, faithful)
    ensures Reaches(p, q, faithful)
  {
    var next := Do(p, a, faithful);
    var later :| Possible(next, later, faithful) && RunAll(next, later, faithful) == q;
    assert ([a] + later)[1..] == later;
    assert Possible(p, [a] + later, faithful) && RunAll(p, [a] + later, faithful) == q;
  }

  /** One action leads from one state to the other. */
  ghost predicate OneStep(p: Pair, q: Pair, faithful: bool) {
    exists a :: Enabled(p, a, faithful) && Do(p, a, faithful) == q
  }

  lemma ReachesBehind(p: Pair, q: Pair, r: Pair, faithful: bool)
    requires OneStep(p, q, faithful) && Reaches(q, r, faithful)
    ensures Reaches(p, r, faithful)
  {
    var a :| Enabled(p, a, faithful) && Do(p, a, faithful) == q;
    ReachesAfter(p, a, r, faithful);
  }

  // ----- What no action changes

  predicate SameEnds(p: Pair, q: Pair) {
    SameEndpoint(p.near, q.near) && SameEndpoint(p.far, q.far) && q.rx == p.rx
  }

  lemma BuiltEnds(p: Pair, r: Reply, frame: Frame, meaning: Meaning)
    requires Keeps(p.near, r)
    ensures SameEnds(p, Built(p, r, frame, meaning))
  {
  }

  lemma AnswerEnds(v: Pair)
    requires Consistent(v.near)
    ensures SameEnds(v, AnswerStep(v))
  {
    ConnectResponseKeeps(v.near);
  }

  lemma ConnectEnds(p: Pair, user: Option<seq<Byte>>)
    requires Consistent(p.near)
    ensures SameEnds(p, ConnectStep(p, user))
  {
    var negotiate := user.Some? || p.near.options.capability != DefaultCapability();
    var u := if user.Some? then user.value else [];
    ConnectStepBuilds(p, user);
    ConnectRequestKeeps(p.near, negotiate, u);
    BuiltEnds(p, BuildConnectRequest(p.near, negotiate, u),
              FrameTo(p.near.options, SNRM, ConnectInformation(p.near.options, negotiate, u)), Request);
  }

  lemma SendEnds(v: Pair, payload: seq<Byte>, pollFinal: bool)
    requires Consistent(v.near)
    ensures SameEnds(v, SendStep(v, payload, pollFinal)) && SameEnds(v, AcknowledgeStep(v, pollFinal))
  {
    InformationKeeps(v.near, payload, pollFinal);
    ReceiveReadyKeeps(v.near, pollFinal);
  }

  lemma PartEnds(v: Pair, user: seq<Byte>)
    requires Consistent(v.near)
    ensures SameEnds(v, DisconnectStep(v, user)) && SameEnds(v, ReleaseStep(v))
  {
    DisconnectRequestKeeps(v.near, user);
    DisconnectResponseKeeps(v.near);
  }

  lemma ArriveEnds(v: Pair, bytes: seq<Byte>)
    requires Consistent(v.near) && v.back.wire != []
    ensures SameEnds(v, DeliverStep(v, bytes))
  {
    var decoded := DecodeFrame(bytes, v.rx);
    if decoded.Success? {
      ReceiveKeeps(v.near, decoded.value);
      HeardEnds(v, Receive(v.near, decoded.value));
    }
  }

  lemma HeardEnds(v: Pair, r: Reply)
    requires v.back.wire != [] && SameEndpoint(v.near, r.session)
    ensures SameEnds(v, Heard(v, Some(r)))
  {
  }

  lemma DoEnds(p: Pair, a: Action, faithful: bool)
    requires Consistent(p.near) && Consistent(p.far) && Enabled(p, a, faithful)
    ensures SameEnds(p, Do(p, a, faithful))
  {
    match a
    case Connect(user) => ConnectEnds(p, user);
    case Answer => AnswerEnds(Flip(p));
    case Send(byClient, payload, pollFinal) => SendEnds(if byClient then p else Flip(p), payload, pollFinal);
    case Acknowledge(byClient, pollFinal) => SendEnds(if byClient then p else Flip(p), [], pollFinal);
    case Disconnect(byClient, parting) => PartEnds(if byClient then p else Flip(p), parting);
    case LetGo(byClient) => PartEnds(if byClient then p else Flip(p), []);
    case Arrive(atClient, bytes) => ArriveEnds(if atClient then p else Flip(p), bytes);
    case Lose(fromClient, i) =>
  }

  lemma {:induction false} RunEnds(p: Pair, actions: seq<Action>, faithful: bool)
    requires Inv(p, faithful) && Possible(p, actions, faithful)
    ensures SameEnds(p, RunAll(p, actions, faithful))
    decreases |actions|
  {
    if actions != [] {
      DoEnds(p, actions[0], faithful);
      DoInv(p, actions[0], faithful);
      RunEnds(Do(p, actions[0], faithful), actions[1..], faithful);
    }
  }
}
