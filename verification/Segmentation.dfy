/** Splitting payloads into frames and putting them together again (src/hdlc/hdlc_segmentation.cpp). */
module Segmentation {
  import opened Types
  import opened Bits
  import opened Addressing
  import opened ControlField
  import opened Codec

  function MaximumChunk(limits: Limits): (r: nat)
    ensures r > 0
  {
    if limits.maximumInformationFieldSize == 0 then 2030 else limits.maximumInformationFieldSize
  }

  function MaximumReassembled(limits: Limits): (r: nat)
    ensures r > 0
  {
    if limits.maximumReassembledInformationSize == 0 then 65535 else limits.maximumReassembledInformationSize
  }

  // std::size_t has 64 bits.
  const SIZE_MODULUS: nat := 0x1_0000_0000_0000_0000

  /** Unsigned subtraction, which wraps around. */
  function Subtract(a: nat, b: nat): nat {
    (a - b) % SIZE_MODULUS
  }

  lemma SubtractCases(a: nat, b: nat)
    requires a < 0x1_0000_0000_0000_0000 && b < 0x1_0000_0000_0000_0000
    ensures Subtract(a, b) == if b <= a then a - b else a - b + 0x1_0000_0000_0000_0000
  {
  }

  // ----- The segmenter

  function Piece(base: Frame, segmented: bool, information: seq<Byte>): Frame {
    base.(segmented := segmented, information := information)
  }

  function Segments(base: Frame, information: seq<Byte>, chunk: nat): (r: seq<Frame>)
    requires chunk > 0
    ensures r != []
    decreases |information|
  {
    if |information| <= chunk then [Piece(base, false, information)]
    else [Piece(base, true, information[..chunk])] + Segments(base, information[chunk..], chunk)
  }

  method SegmentInformation(limits: Limits, base: Frame, information: seq<Byte>) returns (frames: seq<Frame>)
    ensures frames == Segments(base, information, MaximumChunk(limits))
  {
    var chunk := MaximumChunk(limits);
    if |information| <= chunk {
      return [Piece(base, false, information)];
    }
    frames := [];
    var offset := 0;
    while offset < |information|
      invariant 0 <= offset <= |information|
      invariant if offset < |information|
        then frames + Segments(base, information[offset..], chunk) == Segments(base, information, chunk)
        else frames == Segments(base, information, chunk)
    {
      var remaining := |information| - offset;
      var size := Min(chunk, remaining);
      var hasMore := offset + size < |information|;
      NextSegment(base, information, offset, chunk, frames);
      frames := frames + [Piece(base, hasMore, information[offset..offset + size])];
      offset := offset + size;
    }
  }

  /** One turn of the loop: the segment from offset on goes behind the frames already produced. */
  lemma NextSegment(base: Frame, information: seq<Byte>, offset: nat, chunk: nat, frames: seq<Frame>)
    requires chunk > 0 && offset < |information|
    ensures var end := offset + Min(chunk, |information| - offset);
      var piece := Piece(base, end < |information|, information[offset..end]);
      frames + Segments(base, information[offset..], chunk) ==
        if end < |information| then frames + [piece] + Segments(base, information[end..], chunk) else frames + [piece]
  {
    var rest, size := information[offset..], Min(chunk, |information| - offset);
    if size < |rest| {
      assert rest[..size] == information[offset..offset + size] && rest[size..] == information[offset + size..];
    } else {
      assert information[offset..offset + size] == rest;
    }
  }

  function InformationOf(frames: seq<Frame>): seq<Byte> {
    if frames == [] then [] else frames[0].information + InformationOf(frames[1..])
  }

  /** The segments carry the payload in order, each but the last full and marked as continued. */
  lemma {:induction false} SegmentsShape(base: Frame, information: seq<Byte>, chunk: nat)
    requires chunk > 0
    ensures var r := Segments(base, information, chunk);
      && InformationOf(r) == information
      && chunk * (|r| - 1) + |r[|r| - 1].information| == |information|
      && (|r| > 1 ==> r[|r| - 1].information != [])
      && (forall i :: 0 <= i < |r| ==> r[i] == Piece(base, i < |r| - 1, r[i].information))
      && (forall i :: 0 <= i < |r| - 1 ==> |r[i].information| == chunk)
      && |r[|r| - 1].information| <= chunk
    decreases |information|
  {
    if |information| > chunk {
      var rest := Segments(base, information[chunk..], chunk);
      SegmentsShape(base, information[chunk..], chunk);
      var r := Segments(base, information, chunk);
      assert r[1..] == rest;
      assert r[|r| - 1] == rest[|rest| - 1];
      assert forall i :: 0 < i < |r| ==> r[i] == rest[i - 1];
      assert information[..chunk] + information[chunk..] == information;
      assert chunk * (|r| - 1) == chunk * (|rest| - 1) + chunk;
    }
  }

  // ----- The reassembler

  datatype Assembly = Idle | Pending(frame: Frame)

  datatype Reply = Reply(state: Assembly, status: Status, completed: Option<Frame>)

  predicate SameAddresses(a: Frame, b: Frame) {
    a.destination == b.destination && a.source == b.source
  }

  predicate Continues(pending: Frame, frame: Frame) {
    SameAddresses(pending, frame) && pending.control.Kind() == frame.control.Kind()
  }

  function Accept(limits: Limits, state: Assembly, frame: Frame): Reply {
    match state
    case Idle =>
      if |frame.information| > MaximumReassembled(limits) then Reply(Idle, SegmentationOverflow, None)
      else if !frame.segmented then Reply(Idle, Ok, Some(frame))
      else Reply(Pending(frame), SegmentationIncomplete, None)
    case Pending(p) =>
      var merged := p.(information := p.information + frame.information);
      if !Continues(p, frame) then Reply(Idle, SegmentationError, None)
      else if |p.information| > Subtract(MaximumReassembled(limits), |frame.information|) then
        Reply(Idle, SegmentationOverflow, None)
      else if frame.segmented then Reply(Pending(merged), SegmentationIncomplete, None)
      else Reply(Idle, Ok, Some(merged.(segmented := false)))
  }

  class Reassembler {
    const limits: Limits
    var hasPending: bool
    var pendingFrame: Frame

    function State(): Assembly
      reads this
    {
      if hasPending then Pending(pendingFrame) else Idle
    }

    constructor (limits: Limits)
      ensures this.limits == limits && State() == Idle
    {
      this.limits := limits;
      hasPending := false;
      pendingFrame := Frame(false, Address(0, 1), Address(0, 1), Control(0), []);
    }

    method PushFrame(frame: Frame) returns (status: Status, completed: Option<Frame>)
      modifies this
      ensures Reply(State(), status, completed) == Accept(limits, old(State()), frame)
    {
      var maximum := MaximumReassembled(limits);
      if !hasPending {
        if |frame.information| > maximum {
          return SegmentationOverflow, None;
        }
        if !frame.segmented {
          return Ok, Some(frame);
        }
        pendingFrame := frame;
        hasPending := true;
        return SegmentationIncomplete, None;
      }
      if !SameAddresses(pendingFrame, frame) || pendingFrame.control.Kind() != frame.control.Kind() {
        Reset();
        return SegmentationError, None;
      }
      if |pendingFrame.information| > Subtract(maximum, |frame.information|) {
        Reset();
        return SegmentationOverflow, None;
      }
      pendingFrame := pendingFrame.(information := pendingFrame.information + frame.information);
      if frame.segmented {
        return SegmentationIncomplete, None;
      }
      completed := Some(pendingFrame.(segmented := false));
      Reset();
      return Ok, completed;
    }

    method Reset()
      modifies this
      ensures State() == Idle
    {
      hasPending := false;
      pendingFrame := Frame(false, Address(0, 1), Address(0, 1), Control(0), []);
    }
  }

  // ----- The reassembly limit

  function Size(state: Assembly): nat {
    if state.Idle? then 0 else |state.frame.information|
  }

  predicate WithinLimit(limits: Limits, r: Reply) {
    && Size(r.state) <= MaximumReassembled(limits)
    && (r.completed.Some? ==> |r.completed.value.information| <= MaximumReassembled(limits))
  }

  /** The limit is kept by a step exactly when the frame alone is within it, or nothing is pending,
      or the frame does not belong to the pending sequence: a continuation larger than the limit
      makes the unsigned check wrap around and is let through. */
  lemma LimitStep(limits: Limits, state: Assembly, frame: Frame)
    requires Size(state) <= MaximumReassembled(limits) && |frame.information| < SIZE_MODULUS
    requires MaximumReassembled(limits) < SIZE_MODULUS
    ensures WithinLimit(limits, Accept(limits, state, frame)) <==>
      (|frame.information| <= MaximumReassembled(limits) || state.Idle? || !Continues(state.frame, frame))
  {
    SubtractCases(MaximumReassembled(limits), |frame.information|);
  }

  /** With a limit of one byte, one pending byte and a final segment of two make a frame of three,
      and the status is Ok. */
  lemma LimitExceeded(p: Frame)
    requires p.information == [0] && p.segmented
    ensures var limits := Limits(0, 0, 1);
      var last := p.(segmented := false, information := [0, 0]);
      Accept(limits, Pending(p), last) == Reply(Idle, Ok, Some(p.(segmented := false, information := [0, 0, 0])))
  {
    assert [0] + [0, 0] == [0, 0, 0];
    SubtractCases(1, 2);
  }

  // ----- Histories

  /** What became of the frames pushed: each group of consecutive frames made one message, was
      discarded with an error or was dropped by a reset, and the last group may still be open. */
  datatype Group =
    | Whole(parts: seq<Frame>, message: Frame)
    | Lost(parts: seq<Frame>, status: Status)
    | Dropped(parts: seq<Frame>)

  datatype History = History(groups: seq<Group>, open: seq<Frame>, state: Assembly)

  function Track(limits: Limits, state: Assembly, open: seq<Frame>, frames: seq<Frame>): History
    decreases |frames|, 0
  {
    if frames == [] then History([], open, state)
    else Follow(limits, Accept(limits, state, frames[0]), open + [frames[0]], frames[1..])
  }

  /** The history after a reply to the last of these parts. */
  function Follow(limits: Limits, r: Reply, parts: seq<Frame>, rest: seq<Frame>): History
    decreases |rest|, 1
  {
    if r.completed.Some? then Close(Whole(parts, r.completed.value), Track(limits, r.state, [], rest))
    else if r.state.Pending? then Track(limits, r.state, parts, rest)
    else Close(Lost(parts, r.status), Track(limits, r.state, [], rest))
  }

  function Close(g: Group, h: History): History {
    h.(groups := [g] + h.groups)
  }

  function PartsOf(groups: seq<Group>): seq<Frame> {
    if groups == [] then [] else groups[0].parts + PartsOf(groups[1..])
  }

  function MessagesOf(groups: seq<Group>): seq<Frame> {
    if groups == [] then []
    else (if groups[0].Whole? then [groups[0].message] else []) + MessagesOf(groups[1..])
  }

  /** Consecutive segments of one message: all with the addresses and kind of the first. */
  predicate Sequence(parts: seq<Frame>) {
    && parts != []
    && (forall i :: 0 <= i < |parts| ==> Continues(parts[0], parts[i]))
    && (forall i :: 0 <= i < |parts| - 1 ==> parts[i].segmented)
  }

  function Merge(parts: seq<Frame>, segmented: bool): Frame
    requires parts != []
  {
    parts[0].(segmented := segmented, information := InformationOf(parts))
  }

  /** Segments that wait for more. */
  predicate OpenSequence(parts: seq<Frame>) {
    Sequence(parts) && parts[|parts| - 1].segmented
  }

  /** The pending frame is the merge of the open segments. */
  predicate Holds(state: Assembly, open: seq<Frame>) {
    if open == [] then state.Idle? else OpenSequence(open) && state == Pending(Merge(open, true))
  }

  /** The last part belongs to the parts before it. */
  predicate LastContinues(parts: seq<Frame>)
    requires parts != []
  {
    |parts| == 1 || Continues(parts[0], parts[|parts| - 1])
  }

  /** A message is the merge of a closed sequence within the limit. A group is lost by its last frame:
      with SegmentationError because it does not continue the open sequence before it, with
      SegmentationOverflow because it does and the sum exceeds the limit. A dropped group was open. */
  predicate GroupSound(limits: Limits, g: Group) {
    match g
    case Whole(parts, message) =>
      && Sequence(parts) && !parts[|parts| - 1].segmented && message == Merge(parts, false)
      && |message.information| <= MaximumReassembled(limits)
    case Lost(parts, status) =>
      && parts != []
      && (|parts| > 1 ==> OpenSequence(parts[..|parts| - 1]))
      && (if LastContinues(parts) then status == SegmentationOverflow && |InformationOf(parts)| > MaximumReassembled(limits)
          else status == SegmentationError)
    case Dropped(parts) => OpenSequence(parts)
  }

  lemma {:induction false} InformationAppend(a: seq<Frame>, b: seq<Frame>)
    ensures InformationOf(a + b) == InformationOf(a) + InformationOf(b)
    decreases |a|
  {
    if a == [] {
      assert a + b == b;
    } else {
      assert (a + b)[1..] == a[1..] + b;
      InformationAppend(a[1..], b);
    }
  }

  lemma InformationSnoc(open: seq<Frame>, frame: Frame)
    ensures InformationOf(open + [frame]) == InformationOf(open) + frame.information
  {
    InformationAppend(open, [frame]);
    assert [frame][1..] == [];
    assert InformationOf([frame]) == frame.information + [];
  }

  /** What a reply does with the parts so far. */
  predicate Books(limits: Limits, r: Reply, parts: seq<Frame>) {
    && Size(r.state) <= MaximumReassembled(limits)
    && (r.completed.Some? ==> Holds(r.state, []) && GroupSound(limits, Whole(parts, r.completed.value)))
    && (r.completed.None? && r.state.Pending? ==> Holds(r.state, parts))
    && (r.completed.None? && r.state.Idle? ==> GroupSound(limits, Lost(parts, r.status)))
  }

  lemma FirstStep(limits: Limits, frame: Frame)
    ensures Books(limits, Accept(limits, Idle, frame), [] + [frame])
  {
    InformationSnoc([], frame);
    assert [] + [frame] == [frame] && InformationOf([frame]) == frame.information;
  }

  lemma SequenceSnoc(open: seq<Frame>, frame: Frame)
    requires OpenSequence(open)
    ensures var parts := open + [frame];
      && parts[..|parts| - 1] == open && parts[0] == open[0] && parts[|parts| - 1] == frame
      && InformationOf(parts) == InformationOf(open) + frame.information
      && (Continues(open[0], frame) ==> Sequence(parts))
  {
    InformationSnoc(open, frame);
  }

  lemma LaterStep(limits: Limits, open: seq<Frame>, frame: Frame)
    requires OpenSequence(open) && |InformationOf(open)| <= MaximumReassembled(limits) < SIZE_MODULUS
    requires |frame.information| <= MaximumReassembled(limits)
    ensures Books(limits, Accept(limits, Pending(Merge(open, true)), frame), open + [frame])
  {
    SubtractCases(MaximumReassembled(limits), |frame.information|);
    SequenceSnoc(open, frame);
    LaterBooks(limits, open, open + [frame], frame);
  }

  lemma LaterBooks(limits: Limits, open: seq<Frame>, parts: seq<Frame>, frame: Frame)
    requires OpenSequence(open) && |parts| == |open| + 1
    requires parts[..|parts| - 1] == open && parts[0] == open[0] && parts[|parts| - 1] == frame
    requires InformationOf(parts) == InformationOf(open) + frame.information
    requires Continues(open[0], frame) ==> Sequence(parts)
    requires Subtract(MaximumReassembled(limits), |frame.information|) == MaximumReassembled(limits) - |frame.information|
    ensures Books(limits, Accept(limits, Pending(Merge(open, true)), frame), parts)
  {
  }

  /** One push keeps the books: the frame joins the open segments, and they stay open, become a
      message, or are lost. */
  lemma TrackStep(limits: Limits, state: Assembly, open: seq<Frame>, frame: Frame)
    requires Holds(state, open) && Size(state) <= MaximumReassembled(limits) < SIZE_MODULUS
    requires |frame.information| <= MaximumReassembled(limits)
    ensures Books(limits, Accept(limits, state, frame), open + [frame])
  {
    if open == [] {
      FirstStep(limits, frame);
    } else {
      LaterStep(limits, open, frame);
    }
  }

  ghost predicate Accounts(limits: Limits, h: History, frames: seq<Frame>) {
    && PartsOf(h.groups) + h.open == frames
    && (forall g :: g in h.groups ==> GroupSound(limits, g))
    && Holds(h.state, h.open)
    && Size(h.state) <= MaximumReassembled(limits)
  }

  lemma CloseAccounts(limits: Limits, g: Group, h: History, frames: seq<Frame>)
    requires Accounts(limits, h, frames) && GroupSound(limits, g)
    ensures Accounts(limits, Close(g, h), g.parts + frames)
  {
    var all := Close(g, h);
    assert all.groups[1..] == h.groups;
    assert g.parts + (PartsOf(h.groups) + h.open) == g.parts + PartsOf(h.groups) + h.open;
  }

  /** Over every history of frames within the limit, each frame pushed lands, in order, in exactly
      one message, in one discarded group, or among the open segments; every message is the merge
      of a proper sequence and within the limit; and the pending frame is the merge of what is open. */
  lemma {:induction false} HistorySound(limits: Limits, state: Assembly, open: seq<Frame>, frames: seq<Frame>)
    requires Holds(state, open) && Size(state) <= MaximumReassembled(limits) < SIZE_MODULUS
    requires FramesWithin(limits, frames)
    ensures Accounts(limits, Track(limits, state, open, frames), open + frames)
    decreases |frames|, 0
  {
    if frames == [] {
      assert open + frames == open;
    } else {
      var r, parts, rest := Accept(limits, state, frames[0]), open + [frames[0]], frames[1..];
      TrackStep(limits, state, open, frames[0]);
      Regroup(open, frames);
      StepSound(limits, r, parts, rest);
    }
  }

  lemma Regroup(open: seq<Frame>, frames: seq<Frame>)
    requires frames != []
    ensures open + [frames[0]] + frames[1..] == open + frames
  {
  }

  /** What follows a step, given that the step kept the books. */
  lemma StepSound(limits: Limits, r: Reply, parts: seq<Frame>, rest: seq<Frame>)
    requires Books(limits, r, parts) && MaximumReassembled(limits) < SIZE_MODULUS && FramesWithin(limits, rest)
    ensures Accounts(limits, Follow(limits, r, parts, rest), parts + rest)
    decreases |rest|, 2
  {
    if r.completed.None? && r.state.Pending? {
      HistorySound(limits, r.state, parts, rest);
    } else {
      var g := if r.completed.Some? then Whole(parts, r.completed.value) else Lost(parts, r.status);
      GroupClosed(limits, r.state, g, rest);
    }
  }

  /** The history that starts with a closed group, given the history of the rest. */
  lemma GroupClosed(limits: Limits, state: Assembly, g: Group, rest: seq<Frame>)
    requires state.Idle? && GroupSound(limits, g) && MaximumReassembled(limits) < SIZE_MODULUS
    requires FramesWithin(limits, rest)
    ensures Accounts(limits, Close(g, Track(limits, state, [], rest)), g.parts + rest)
    decreases |rest|, 1
  {
    HistorySound(limits, state, [], rest);
    assert [] + rest == rest;
    CloseAccounts(limits, g, Track(limits, state, [], rest), rest);
  }

  predicate FramesWithin(limits: Limits, frames: seq<Frame>) {
    forall i :: 0 <= i < |frames| ==> |frames[i].information| <= MaximumReassembled(limits)
  }

  // ----- Histories with resets

  function Drop(open: seq<Frame>): seq<Group> {
    if open == [] then [] else [Dropped(open)]
  }

  /** The frames pushed between one reset by the caller and the next. */
  function TrackResets(limits: Limits, runs: seq<seq<Frame>>): History
    decreases |runs|
  {
    if runs == [] then History([], [], Idle)
    else
      var h := Track(limits, Idle, [], runs[0]);
      if |runs| == 1 then h
      else
        var k := TrackResets(limits, runs[1..]);
        History(h.groups + Drop(h.open) + k.groups, k.open, k.state)
  }

  function Joined(runs: seq<seq<Frame>>): seq<Frame> {
    if runs == [] then [] else runs[0] + Joined(runs[1..])
  }

  lemma {:induction false} PartsAppend(a: seq<Group>, b: seq<Group>)
    ensures PartsOf(a + b) == PartsOf(a) + PartsOf(b)
    decreases |a|
  {
    if a == [] {
      assert a + b == b;
    } else {
      assert (a + b)[1..] == a[1..] + b;
      PartsAppend(a[1..], b);
    }
  }

  lemma DropParts(open: seq<Frame>)
    ensures PartsOf(Drop(open)) == open
  {
    if open != [] {
      assert [Dropped(open)][1..] == [];
    }
  }

  lemma ResetAccounts(limits: Limits, h: History, k: History, frames: seq<Frame>, later: seq<Frame>)
    requires Accounts(limits, h, frames) && Accounts(limits, k, later)
    ensures Accounts(limits, History(h.groups + Drop(h.open) + k.groups, k.open, k.state), frames + later)
  {
    PartsAppend(h.groups + Drop(h.open), k.groups);
    PartsAppend(h.groups, Drop(h.open));
    DropParts(h.open);
    Associate(PartsOf(h.groups) + h.open, PartsOf(k.groups), k.open);
  }

  lemma Associate(a: seq<Frame>, b: seq<Frame>, c: seq<Frame>)
    ensures a + b + c == a + (b + c)
  {
  }

  /** The same with resets by the caller anywhere between the frames: a reset drops exactly the open
      segments, and everything else lands as before. */
  lemma {:induction false} ResetsSound(limits: Limits, runs: seq<seq<Frame>>)
    requires MaximumReassembled(limits) < SIZE_MODULUS
    requires forall i :: 0 <= i < |runs| ==> FramesWithin(limits, runs[i])
    ensures Accounts(limits, TrackResets(limits, runs), Joined(runs))
    decreases |runs|
  {
    if runs != [] {
      HistorySound(limits, Idle, [], runs[0]);
      assert [] + runs[0] == runs[0];
      if |runs| == 1 {
        assert Joined(runs[1..]) == [] && Joined(runs) == runs[0];
      } else {
        ResetsSound(limits, runs[1..]);
        ResetAccounts(limits, Track(limits, Idle, [], runs[0]), TrackResets(limits, runs[1..]), runs[0], Joined(runs[1..]));
      }
    }
  }

  // ----- Reassembling what was segmented

  /** The segments of a payload complete whatever is held before them, if they continue it. */
  lemma {:induction false} Resume(limits: Limits, held: Frame, base: Frame, open: seq<Frame>, information: seq<Byte>, chunk: nat)
    requires Continues(held, base)
    requires chunk > 0 && |held.information| + |information| <= MaximumReassembled(limits) < SIZE_MODULUS
    ensures var frames := Segments(base, information, chunk);
      Track(limits, Pending(held), open, frames)
        == History([Whole(open + frames, Piece(held, false, held.information + information))], [], Idle)
    decreases |information|
  {
    var frames := Segments(base, information, chunk);
    var first := frames[0];
    SubtractCases(MaximumReassembled(limits), |first.information|);
    if |information| <= chunk {
      assert frames[1..] == [];
    } else {
      var rest := information[chunk..];
      assert frames[1..] == Segments(base, rest, chunk);
      assert held.information + information[..chunk] + rest == held.information + information;
      Resume(limits, held.(information := held.information + information[..chunk]), base, open + [first], rest, chunk);
      assert open + [first] + frames[1..] == open + frames;
    }
  }

  /** The start of a new sequence before the previous one is complete is reported if and only if its
      addresses or its kind differ from the pending ones. */
  lemma NewSequenceReported(limits: Limits, pending: Frame, frame: Frame)
    ensures Accept(limits, Pending(pending), frame).status == SegmentationError <==>
      || pending.destination != frame.destination || pending.source != frame.source
      || pending.control.Kind() != frame.control.Kind()
  {
  }

  /** Otherwise it goes unnoticed: the new payload is appended to the unfinished one and both are
      delivered as one message with Ok. */
  lemma NewSequenceMerged(limits: Limits, pending: Frame, base: Frame, open: seq<Frame>, information: seq<Byte>, chunk: nat)
    requires Continues(pending, base)
    requires chunk > 0 && |pending.information| + |information| <= MaximumReassembled(limits) < SIZE_MODULUS
    ensures MessagesOf(Track(limits, Pending(pending), open, Segments(base, information, chunk)).groups)
         == [Piece(pending, false, pending.information + information)]
  {
    Resume(limits, pending, base, open, information, chunk);
    OneMessage(open + Segments(base, information, chunk), Piece(pending, false, pending.information + information));
  }

  lemma Completes(limits: Limits, base: Frame, information: seq<Byte>, chunk: nat)
    requires chunk > 0 && |information| <= MaximumReassembled(limits) < SIZE_MODULUS
    ensures Track(limits, Idle, [], Segments(base, information, chunk))
         == History([Whole(Segments(base, information, chunk), Piece(base, false, information))], [], Idle)
  {
    var frames := Segments(base, information, chunk);
    var first := frames[0];
    if |information| <= chunk {
      assert frames[1..] == [] && [] + [first] == frames;
    } else {
      var rest := information[chunk..];
      assert frames[1..] == Segments(base, rest, chunk);
      assert information[..chunk] + rest == information;
      Resume(limits, first, base, [first], rest, chunk);
      assert [] + [first] == [first] && [first] + frames[1..] == frames;
    }
  }

  predicate MessagesWithin(limits: Limits, groups: seq<Group>) {
    forall g :: g in groups && g.Whole? ==> |g.message.information| <= MaximumReassembled(limits)
  }

  lemma {:induction false} MessagesBounded(limits: Limits, groups: seq<Group>)
    requires MessagesWithin(limits, groups)
    ensures forall m :: m in MessagesOf(groups) ==> |m.information| <= MaximumReassembled(limits)
    decreases |groups|
  {
    if groups != [] {
      MessagesBounded(limits, groups[1..]);
    }
  }

  /** Chunks larger than the limit are refused one by one; the tail may pass as a message. */
  lemma {:induction false} OversizeChunks(limits: Limits, base: Frame, information: seq<Byte>, chunk: nat)
    requires chunk > MaximumReassembled(limits)
    ensures MessagesWithin(limits, Track(limits, Idle, [], Segments(base, information, chunk)).groups)
    decreases |information|
  {
    var frames := Segments(base, information, chunk);
    if |information| <= chunk {
      assert frames[1..] == [];
    } else {
      assert frames[1..] == Segments(base, information[chunk..], chunk);
      OversizeChunks(limits, base, information[chunk..], chunk);
    }
  }

  /** Segmenting and reassembling is the identity exactly when the payload is within the limit. */
  lemma SegmentationRoundTrip(limits: Limits, base: Frame, information: seq<Byte>, chunk: nat)
    requires chunk > 0 && MaximumReassembled(limits) < SIZE_MODULUS
    ensures MessagesOf(Track(limits, Idle, [], Segments(base, information, chunk)).groups)
              == [Piece(base, false, information)]
       <==> |information| <= MaximumReassembled(limits)
  {
    var frames := Segments(base, information, chunk);
    var h := Track(limits, Idle, [], frames);
    if |information| <= MaximumReassembled(limits) {
      Completes(limits, base, information, chunk);
      OneMessage(frames, Piece(base, false, information));
    } else {
      if chunk > MaximumReassembled(limits) {
        OversizeChunks(limits, base, information, chunk);
      } else {
        SegmentsShape(base, information, chunk);
        HistorySound(limits, Idle, [], frames);
      }
      MessagesBounded(limits, h.groups);
      assert Piece(base, false, information) !in MessagesOf(h.groups);
    }
  }

  lemma OneMessage(parts: seq<Frame>, message: Frame)
    ensures MessagesOf([Whole(parts, message)]) == [message]
  {
    var groups := [Whole(parts, message)];
    assert groups[1..] == [];
  }

  // ----- The constants and the statuses

  /** A payload stays in one frame if and only if it is within the Information limit, or 2030 bytes when
      none is given. */
  lemma OneSegment(limits: Limits, base: Frame, information: seq<Byte>)
    ensures |Segments(base, information, MaximumChunk(limits))| == 1 <==>
      |information| <= if limits.maximumInformationFieldSize == 0 then 2030 else limits.maximumInformationFieldSize
  {
  }

  /** What a push reports: Ok with a complete frame, SegmentationIncomplete while one is pending, and an
      error when nothing is. A frame larger than the limit, or than 65535 bytes when none is given, is
      an overflow at the start of a sequence. */
  lemma ReplyStatus(limits: Limits, state: Assembly, frame: Frame)
    ensures var r := Accept(limits, state, frame);
      && (r.status == Ok <==> r.completed.Some?)
      && (r.status == SegmentationIncomplete <==> r.state.Pending?)
      && (r.status == Ok ==> r.state.Idle?)
      && (r.status !in {Ok, SegmentationIncomplete} <==> r.status in {SegmentationError, SegmentationOverflow})
      && (r.completed.Some? ==> !frame.segmented) && (r.state.Pending? ==> frame.segmented)
    ensures Accept(limits, Idle, frame).status == SegmentationOverflow <==>
      |frame.information| > if limits.maximumReassembledInformationSize == 0 then 65535 else limits.maximumReassembledInformationSize
    ensures Accept(limits, Idle, frame).status != SegmentationError
    ensures Accept(DefaultLimits(), Idle, frame) == Accept(Limits(0, 0, 0), Idle, frame)
  {
  }

  lemma {:induction false} TrackAppend(limits: Limits, state: Assembly, open: seq<Frame>, a: seq<Frame>, b: seq<Frame>)
    ensures var h := Track(limits, state, open, a);
      var k := Track(limits, h.state, h.open, b);
      Track(limits, state, open, a + b) == History(h.groups + k.groups, k.open, k.state)
    decreases |a|
  {
    if a == [] {
      assert a + b == b;
      assert [] + Track(limits, state, open, b).groups == Track(limits, state, open, b).groups;
    } else {
      assert (a + b)[1..] == a[1..] + b && (a + b)[0] == a[0];
      var r, parts := Accept(limits, state, a[0]), open + [a[0]];
      var next := if r.completed.None? && r.state.Pending? then parts else [];
      TrackAppend(limits, r.state, next, a[1..], b);
      var h := Track(limits, r.state, next, a[1..]);
      var k := Track(limits, h.state, h.open, b);
      var g := if r.completed.Some? then Whole(parts, r.completed.value) else Lost(parts, r.status);
      assert [g] + (h.groups + k.groups) == [g] + h.groups + k.groups;
    }
  }
}
