/** On faithful lines the two sides can always be brought to rest with everything delivered. */
module LinkProgress {
  import opened Types
  import opened Bits
  import opened SessionModel
  import opened SessionLimits
  import opened Link
  import opened LinkRuns
  import opened LinkPaths

  /** Nothing is on the lines, everything sent was delivered and acknowledged, and both windows are open. */
  predicate AtPeace(p: Pair) {
    && p.out.wire == [] && p.back.wire == []
    && p.out.delivered == p.out.sent && p.back.delivered == p.back.sent
    && p.out.acked == |p.out.sent| && p.back.acked == |p.back.sent|
    && p.near.va == p.near.vs && p.far.va == p.far.vs && CanSend(p.near) && CanSend(p.far)
  }

  /** The same payloads were sent, in the same connections. */
  predicate SameSent(p: Pair, q: Pair) {
    q.out.sent == p.out.sent && q.back.sent == p.back.sent && q.past == p.past
  }

  predicate BothBare(p: Pair) {
    AdmitsBare(p.near.options) && AdmitsBare(p.far.options)
  }

  lemma EndsBare(p: Pair, q: Pair)
    requires SameEnds(p, q) && BothBare(p)
    ensures BothBare(q)
  {
  }

  // ----- What is left to do

  /** An end that is up has not announced all that the other has sent. */
  function Stale(announced: nat, sent: seq<seq<Byte>>): nat {
    if announced == |sent| then 0 else 1
  }

  function Staleness(p: Pair): nat {
    Stale(p.out.announced, p.back.sent) + Stale(p.back.announced, p.out.sent)
  }

  function OnTheLines(p: Pair): nat {
    |p.out.wire| + |p.back.wire|
  }

  /** An action that brings the two sides nearer to rest. */
  predicate Nearer(p: Pair, q: Pair) {
    && SameSent(p, q)
    && (Staleness(q) < Staleness(p) || (Staleness(q) == Staleness(p) && OnTheLines(q) < OnTheLines(p)))
  }

  lemma HeardNearer(v: Pair, arrival: Option<Reply>)
    requires v.back.wire != []
    ensures Nearer(v, Heard(v, arrival))
  {
  }

  /** With faithful lines empty, either both sides are up and everything is delivered, or nothing was sent. */
  lemma LinesEmpty(p: Pair)
    requires Inv(p, true) && OnTheLines(p) == 0
    ensures p.out.delivered == p.out.sent && p.back.delivered == p.back.sent
    ensures p.out.acked == p.back.announced && p.back.acked == p.out.announced
    ensures Staleness(p) > 0 ==> p.near.phase == Connected && p.far.phase == Connected
    ensures Staleness(p) == 0 ==> p.out.announced == |p.back.delivered| && p.back.announced == |p.out.delivered|
  {
  }

  lemma AnnounceNearer(v: Pair)
    requires v.near.phase == Connected && AdmitsBare(v.near.options)
    requires v.back.delivered == v.back.sent && Stale(v.out.announced, v.back.sent) > 0
    ensures Nearer(v, AcknowledgeStep(v, false))
  {
    RoomExact(v.near.options, ReceiveReadyControl(v.near.vr, false), []);
  }

  lemma ArrivalNearer(v: Pair)
    requires v.back.wire != []
    ensures Nearer(v, DeliverStep(v, v.back.wire[0].bytes))
  {
    HeardNearer(v, Arrival(v, v.back.wire[0].bytes));
  }

  /** The same from the other end. */
  lemma NearerFlipped(v: Pair, w: Pair)
    requires Nearer(v, w)
    ensures Nearer(Flip(v), Flip(w))
  {
  }

  lemma ArriveMove(p: Pair, atClient: bool) returns (a: Action)
    requires (if atClient then p.back.wire else p.out.wire) != []
    ensures Enabled(p, a, true) && Nearer(p, Do(p, a, true))
  {
    var v := if atClient then p else Flip(p);
    var bytes := v.back.wire[0].bytes;
    a := Arrive(atClient, bytes);
    ArrivalNearer(v);
    NearerFlipped(v, DeliverStep(v, bytes));
  }

  lemma AnnounceMove(p: Pair, byClient: bool) returns (a: Action)
    requires var v := if byClient then p else Flip(p);
      && v.near.phase == Connected && AdmitsBare(v.near.options)
      && v.back.delivered == v.back.sent && Stale(v.out.announced, v.back.sent) > 0
    ensures Enabled(p, a, true) && Nearer(p, Do(p, a, true))
  {
    var v := if byClient then p else Flip(p);
    a := Acknowledge(byClient, false);
    AnnounceNearer(v);
    NearerFlipped(v, AcknowledgeStep(v, false));
  }

  lemma NextMove(p: Pair) returns (a: Action)
    requires Inv(p, true) && BothBare(p) && (OnTheLines(p) > 0 || Staleness(p) > 0)
    ensures Enabled(p, a, true) && Nearer(p, Do(p, a, true))
  {
    if p.back.wire != [] {
      a := ArriveMove(p, true);
    } else if p.out.wire != [] {
      a := ArriveMove(p, false);
    } else {
      LinesEmpty(p);
      a := AnnounceMove(p, Stale(p.out.announced, p.back.sent) > 0);
    }
  }

  lemma {:induction false} ComesToRest(p: Pair) returns (q: Pair)
    requires Inv(p, true) && BothBare(p)
    ensures Reaches(p, q, true) && Inv(q, true) && SameSent(p, q)
    ensures OnTheLines(q) == 0 && Staleness(q) == 0
    decreases Staleness(p), OnTheLines(p)
  {
    if OnTheLines(p) == 0 && Staleness(p) == 0 {
      ReachesItself(p, true);
      q := p;
    } else {
      var a := NextMove(p);
      var next := Do(p, a, true);
      DoInv(p, a, true);
      DoEnds(p, a, true);
      EndsBare(p, next);
      q := ComesToRest(next);
      ReachesAfter(p, a, q, true);
    }
  }

  /** From every state of every faithful run, if both sides can build a frame without Information, some
      continuation sends no further payload and brings everything to rest: all that was sent is
      delivered and acknowledged, and both windows are open. Nothing that a faithful run did before can
      prevent it. */
  lemma CanComeToRest(c: SessionModel.Options, s: SessionModel.Options, actions: seq<Action>)
    requires Constructed(c, s) && AdmitsBare(c) && AdmitsBare(s)
    requires Possible(Initial(c, s, DefaultLimits()), actions, true)
    ensures var p := RunAll(Initial(c, s, DefaultLimits()), actions, true);
      exists q :: Reaches(p, q, true) && SameSent(p, q) && AtPeace(q)
  {
    var start := Initial(c, s, DefaultLimits());
    var p := RunAll(start, actions, true);
    InitialInv(c, s, DefaultLimits(), true);
    RunInv(start, actions, true);
    RunEnds(start, actions, true);
    EndsBare(start, p);
    var q := ComesToRest(p);
    RestIsPeace(q);
  }

  lemma RestIsPeace(q: Pair)
    requires Inv(q, true) && OnTheLines(q) == 0 && Staleness(q) == 0
    ensures AtPeace(q)
  {
    LinesEmpty(q);
    Drained(q);
  }
}
