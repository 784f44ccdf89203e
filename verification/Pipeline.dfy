/** The whole path of a payload: segmenting, printing, cutting into chunks, decoding, reassembling. */
module Pipeline {
  import opened Types
  import opened Bits
  import opened Codec
  import opened Stream
  import opened Segmentation

  /** The bytes of frames sent one after the other. */
  function Printed(frames: seq<Frame>): seq<Byte> {
    if frames == [] then [] else Print(frames[0]) + Printed(frames[1..])
  }

  function Quiet(frames: seq<Frame>): (items: seq<Item>)
    ensures |items| == |frames|
    ensures forall i :: 0 <= i < |items| ==> items[i] == Item([], frames[i])
  {
    seq(|frames|, i requires 0 <= i < |frames| => Item([], frames[i]))
  }

  lemma {:induction false} QuietLine(frames: seq<Frame>)
    ensures Line(Quiet(frames), []) == Printed(frames)
    ensures FramesOf(Quiet(frames)) == frames
    decreases |frames|
  {
    if frames != [] {
      QuietLine(frames[1..]);
      assert Quiet(frames)[1..] == Quiet(frames[1..]);
      var w := Print(frames[0]) + Printed(frames[1..]);
      assert [] + w == w;
    }
  }

  // ----- Which segments encode

  predicate Fits(limits: Limits, frames: seq<Frame>) {
    forall i :: 0 <= i < |frames| ==> EncodeStatus(frames[i], limits) == Ok
  }

  /** A frame with no more Information encodes as well. */
  lemma ShorterEncodes(f: Frame, g: Frame, limits: Limits)
    requires HeaderSize(f) == HeaderSize(g) && |g.information| <= |f.information|
    requires EncodeStatus(f, limits) == Ok
    ensures EncodeStatus(g, limits) == Ok
  {
  }

  /** As much of a payload as a segment takes. */
  function Largest(m: Frame, information: seq<Byte>, chunk: nat): Frame {
    Piece(m, false, information[..Min(chunk, |information|)])
  }

  /** The segments of a payload all encode if and only if the largest one does. */
  lemma SegmentsFit(limits: Limits, m: Frame, information: seq<Byte>, chunk: nat)
    requires chunk > 0
    ensures Fits(limits, Segments(m, information, chunk)) <==> EncodeStatus(Largest(m, information, chunk), limits) == Ok
  {
    var frames, largest := Segments(m, information, chunk), Largest(m, information, chunk);
    SegmentsShape(m, information, chunk);
    assert |frames[0].information| == |largest.information|;
    if EncodeStatus(largest, limits) == Ok {
      forall i | 0 <= i < |frames| ensures EncodeStatus(frames[i], limits) == Ok {
        ShorterEncodes(largest, frames[i], limits);
      }
    } else if Fits(limits, frames) {
      ShorterEncodes(frames[0], largest, limits);
    }
  }

  /** Whatever the payload, its segments encode: this is so if and only if a full segment leaves room
      for its header and six other bytes, in the frame limit and in what a length can announce. The
      segmenter does not look at the frame limit. */
  lemma SegmenterExact(limits: Limits, m: Frame)
    ensures (forall information :: Fits(limits, Segments(m, information, MaximumChunk(limits)))) <==>
      HeaderSize(m) + MaximumChunk(limits) + 6 <= Min(EffectiveMaximumFrameSize(limits), 2049)
  {
    var chunk := MaximumChunk(limits);
    var full: seq<Byte> := seq(chunk, i => 0);
    SegmentsFit(limits, m, full, chunk);
    FullEncodes(limits, Largest(m, full, chunk));
    if EncodeStatus(Largest(m, full, chunk), limits) == Ok {
      forall information ensures Fits(limits, Segments(m, information, chunk)) {
        SegmentsFit(limits, m, information, chunk);
        ShorterEncodes(Largest(m, full, chunk), Largest(m, information, chunk), limits);
      }
    }
  }

  lemma FullEncodes(limits: Limits, f: Frame)
    requires |f.information| == MaximumChunk(limits)
    ensures EncodeStatus(f, limits) == Ok <==>
      HeaderSize(f) + MaximumChunk(limits) + 6 <= Min(EffectiveMaximumFrameSize(limits), 2049)
  {
  }

  /** Under the default limits every segment encodes, whatever the address sizes. */
  lemma DefaultSegmentsFit(m: Frame)
    ensures Fits(DefaultLimits(), Segments(m, m.information, MaximumChunk(DefaultLimits())))
  {
    assert HeaderSize(m) <= 11;
    SegmenterExact(DefaultLimits(), m);
  }

  /** It fails outside the defaults: with frames of at most 64 bytes and no explicit Information limit,
      a payload of 100 bytes stays one segment, which the encoder refuses. */
  lemma OversizeSegment(m: Frame)
    requires |m.information| == 100 && !m.segmented
    ensures var limits := Limits(64, 0, 0);
      && Segments(m, m.information, MaximumChunk(limits)) == [m]
      && EncodeFrame(m, limits) == Failure(InformationFieldTooLarge)
  {
  }

  // ----- The whole path

  /** The segments of all messages, in order. */
  function SegmentAll(limits: Limits, messages: seq<Frame>): seq<Frame> {
    if messages == [] then []
    else Segments(messages[0], messages[0].information, MaximumChunk(limits)) + SegmentAll(limits, messages[1..])
  }

  /** Whole messages within the reassembly limit. */
  predicate Deliverable(limits: Limits, messages: seq<Frame>) {
    forall i :: 0 <= i < |messages| ==> !messages[i].segmented && |messages[i].information| <= MaximumReassembled(limits)
  }

  /** The largest segment of every message encodes. */
  predicate AllEncodable(limits: Limits, messages: seq<Frame>) {
    forall i :: 0 <= i < |messages| ==>
      EncodeStatus(Largest(messages[i], messages[i].information, MaximumChunk(limits)), limits) == Ok
  }

  lemma FitsAppend(limits: Limits, a: seq<Frame>, b: seq<Frame>)
    ensures Fits(limits, a + b) <==> Fits(limits, a) && Fits(limits, b)
  {
    if Fits(limits, a + b) {
      forall i | 0 <= i < |b| ensures EncodeStatus(b[i], limits) == Ok {
        assert b[i] == (a + b)[|a| + i];
      }
      forall i | 0 <= i < |a| ensures EncodeStatus(a[i], limits) == Ok {
        assert a[i] == (a + b)[i];
      }
    }
  }

  lemma AllEncodableSplit(limits: Limits, messages: seq<Frame>)
    requires messages != []
    ensures AllEncodable(limits, messages) <==>
      EncodeStatus(Largest(messages[0], messages[0].information, MaximumChunk(limits)), limits) == Ok
      && AllEncodable(limits, messages[1..])
  {
    var rest := messages[1..];
    if AllEncodable(limits, messages) {
      forall i | 0 <= i < |rest|
        ensures EncodeStatus(Largest(rest[i], rest[i].information, MaximumChunk(limits)), limits) == Ok
      {
        assert rest[i] == messages[i + 1];
      }
    }
  }

  /** The segments of all messages encode if and only if the largest segment of each does. */
  lemma {:induction false} SegmentAllFits(limits: Limits, messages: seq<Frame>)
    ensures Fits(limits, SegmentAll(limits, messages)) <==> AllEncodable(limits, messages)
    decreases |messages|
  {
    if messages != [] {
      var m := messages[0];
      AllEncodableSplit(limits, messages);
      SegmentsFit(limits, m, m.information, MaximumChunk(limits));
      SegmentAllFits(limits, messages[1..]);
      FitsAppend(limits, Segments(m, m.information, MaximumChunk(limits)), SegmentAll(limits, messages[1..]));
    }
  }

  /** Reassembling the segments of all messages yields the messages and leaves nothing pending. */
  lemma {:induction false} ReassembleAll(limits: Limits, messages: seq<Frame>)
    requires Deliverable(limits, messages) && MaximumReassembled(limits) < SIZE_MODULUS
    ensures var h := Track(limits, Idle, [], SegmentAll(limits, messages));
      MessagesOf(h.groups) == messages && h.state == Idle && h.open == []
    decreases |messages|
  {
    if messages != [] {
      var m := messages[0];
      var frames := Segments(m, m.information, MaximumChunk(limits));
      Completes(limits, m, m.information, MaximumChunk(limits));
      ReassembleAll(limits, messages[1..]);
      TrackAppend(limits, Idle, [], frames, SegmentAll(limits, messages[1..]));
      var k := Track(limits, Idle, [], SegmentAll(limits, messages[1..]));
      assert ([Whole(frames, m)] + k.groups)[1..] == k.groups;
      assert Piece(m, false, m.information) == m;
      assert messages == [m] + messages[1..];
    }
  }

  /** What the path does to messages: the frames sent are decoded one by one with nothing left, and
      they are reassembled to the messages. */
  ghost predicate Survives(limits: Limits, noise: NoisePolicy, messages: seq<Frame>, chunks: seq<seq<Byte>>) {
    var received := PushAll(Options(limits, noise), [], chunks);
    var h := Track(limits, Idle, [], received.frames);
    && received == Outcome(SegmentAll(limits, messages), [], None)
    && MessagesOf(h.groups) == messages && h.state == Idle
  }

  /** Under any limits, any list of payloads within the reassembly limit whose largest segments encode
      survives the whole path, for any addresses, however the line is cut into chunks and whatever the
      noise policy. */
  lemma EndToEnd(limits: Limits, noise: NoisePolicy, messages: seq<Frame>, chunks: seq<seq<Byte>>)
    requires Deliverable(limits, messages) && MaximumReassembled(limits) < SIZE_MODULUS
    requires AllEncodable(limits, messages)
    requires Flatten(chunks) == Printed(SegmentAll(limits, messages))
    ensures Survives(limits, noise, messages, chunks)
  {
    var o, frames := Options(limits, noise), SegmentAll(limits, messages);
    SegmentAllFits(limits, messages);
    QuietLine(frames);
    forall i | 0 <= i < |frames| ensures Sendable(o, Quiet(frames)[i]) {
      assert EncodeStatus(frames[i], o.limits) == Ok;
    }
    ChunkedLineDecodes(o, Quiet(frames), [], chunks);
    ReassembleAll(limits, messages);
  }

  /** Under the default limits nothing else is needed for payloads of up to 65535 bytes. */
  lemma EndToEndDefault(noise: NoisePolicy, messages: seq<Frame>, chunks: seq<seq<Byte>>)
    requires forall i :: 0 <= i < |messages| ==> !messages[i].segmented && |messages[i].information| <= 65535
    requires Flatten(chunks) == Printed(SegmentAll(DefaultLimits(), messages))
    ensures Survives(DefaultLimits(), noise, messages, chunks)
  {
    var limits := DefaultLimits();
    forall i | 0 <= i < |messages|
      ensures EncodeStatus(Largest(messages[i], messages[i].information, MaximumChunk(limits)), limits) == Ok
    {
      DefaultSegmentsFit(messages[i]);
      SegmentsFit(limits, messages[i], messages[i].information, MaximumChunk(limits));
    }
    EndToEnd(limits, noise, messages, chunks);
  }
}
