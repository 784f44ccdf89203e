/** The SNRM/UA parameter block: printing, parsing and negotiating (src/hdlc/hdlc_session.cpp). */
module Negotiation {
  import opened Types
  import opened Bits

  /** Lengths and windows, named from the side of the primary station. */
  datatype Params = Params(maxInfoTx: nat, maxInfoRx: nat, windowTx: nat, windowRx: nat)

  const DEFAULT_MAX_INFO: nat := 128
  const DEFAULT_WINDOW: nat := 1

  function DefaultParams(): Params {
    Params(DEFAULT_MAX_INFO, DEFAULT_MAX_INFO, DEFAULT_WINDOW, DEFAULT_WINDOW)
  }

  /** A big-endian value. */
  function BigEndian(data: seq<Byte>): nat {
    if data == [] then 0 else
    var last: nat := data[|data| - 1];
    BigEndian(data[..|data| - 1]) * 0x100 + last
  }

  method ParseBeValue(data: seq<Byte>) returns (result: nat)
    ensures result == BigEndian(data)
  {
    result := 0;
    for i := 0 to |data|
      invariant result == BigEndian(data[..i])
    {
      assert data[..i + 1][..i] == data[..i];
      var b: nat := data[i];
      result := result * 0x100 + b;
    }
    assert data[..|data|] == data;
  }

  /** The parameters with one of them set, if the tag names one. */
  function SetParam(p: Params, tag: Byte, value: nat): Option<Params> {
    if tag == 0x05 then Some(p.(maxInfoTx := value))
    else if tag == 0x06 then Some(p.(maxInfoRx := value))
    else if tag == 0x07 then Some(p.(windowTx := value))
    else if tag == 0x08 then Some(p.(windowRx := value))
    else None
  }

  function ParseEntries(block: seq<Byte>, p: Params): (r: Result<Params>)
    ensures r.Failure? ==> r.status == InvalidFrameFormat || r.status == UnsupportedFeature
    decreases |block|
  {
    if block == [] then Success(p)
    else if |block| < 2 then Failure(InvalidFrameFormat)
    else if block[1] == 0 || block[1] > 4 || 2 + block[1] as int > |block| then Failure(InvalidFrameFormat)
    else
      var n := block[1] as int;
      match SetParam(p, block[0], BigEndian(block[2..2 + n]))
      case None => Failure(UnsupportedFeature)
      case Some(q) => ParseEntries(block[2 + n..], q)
  }

  datatype Negotiated = Negotiated(params: Params, consumed: nat)

  /** An Information field that does not start with a block is user information throughout. */
  function ParseField(data: seq<Byte>): (r: Result<Negotiated>)
    ensures if r.Success? then r.value.consumed <= |data| else r.status == InvalidFrameFormat || r.status == UnsupportedFeature
    ensures r.Success? && r.value.consumed == 0 ==> r.value.params == DefaultParams()
  {
    if |data| < 3 || data[0] != 0x81 || data[1] != 0x80 then Success(Negotiated(DefaultParams(), 0))
    else
      var end := 3 + data[2] as int;
      if end > |data| then Failure(InvalidFrameFormat)
      else
        var p :- ParseEntries(data[3..end], DefaultParams());
        Success(Negotiated(p, end))
  }

  lemma SubSlice<T>(s: seq<T>, a: nat, b: nat, i: nat, j: nat)
    requires a <= b <= |s| && i <= j <= b - a
    ensures s[a..b][i..j] == s[a + i..a + j]
  {
    var t, u := s[a..b][i..j], s[a + i..a + j];
    assert |t| == |u| && forall k :: 0 <= k < |t| ==> t[k] == u[k];
  }

  /** One turn of the loop: what the rest of the block means, by its first entry. */
  lemma EntryAt(data: seq<Byte>, pos: nat, end: nat, p: Params)
    requires pos < end <= |data|
    ensures ParseEntries(data[pos..end], p) ==
      if pos + 2 > end || data[pos + 1] == 0 || data[pos + 1] > 4 || pos + 2 + data[pos + 1] as int > end then
        Failure(InvalidFrameFormat)
      else
        var next := pos + 2 + data[pos + 1] as int;
        match SetParam(p, data[pos], BigEndian(data[pos + 2..next]))
        case None => Failure(UnsupportedFeature)
        case Some(q) => ParseEntries(data[next..end], q)
  {
    var block := data[pos..end];
    if pos + 2 <= end && pos + 2 + data[pos + 1] as int <= end {
      var n := data[pos + 1] as int;
      SubSlice(data, pos, end, 2, 2 + n);
      SubSlice(data, pos, end, 2 + n, end - pos);
      assert block[2 + n..] == block[2 + n..end - pos];
    }
  }

  method ParseSnrmInfoField(data: seq<Byte>) returns (r: Result<Negotiated>)
    ensures r == ParseField(data)
  {
    if |data| < 3 || data[0] != 0x81 || data[1] != 0x80 {
      return Success(Negotiated(DefaultParams(), 0));
    }
    var end := 3 + data[2] as int;
    if end > |data| {
      return Failure(InvalidFrameFormat);
    }
    var params := ParseBlock(data, end);
    if params.Failure? {
      return Failure(params.status);
    }
    return Success(Negotiated(params.value, end));
  }

  /** The entries of a block that ends here. */
  method ParseBlock(data: seq<Byte>, end: nat) returns (r: Result<Params>)
    requires 3 <= end <= |data|
    ensures r == ParseEntries(data[3..end], DefaultParams())
  {
    var params := DefaultParams();
    var pos := 3;
    while pos < end
      invariant 3 <= pos <= end
      invariant ParseEntries(data[pos..end], params) == ParseEntries(data[3..end], DefaultParams())
    {
      EntryAt(data, pos, end, params);
      if pos + 2 > end {
        return Failure(InvalidFrameFormat);
      }
      var tag := data[pos];
      var valLen := data[pos + 1] as int;
      pos := pos + 2;
      if valLen == 0 || valLen > 4 || pos + valLen > end {
        return Failure(InvalidFrameFormat);
      }
      var value := ParseBeValue(data[pos..pos + valLen]);
      pos := pos + valLen;
      match SetParam(params, tag, value) {
        case None => return Failure(UnsupportedFeature);
        case Some(q) => params := q;
      }
    }
    return Success(params);
  }

  // ----- The block as it is printed

  function Two(v: nat): seq<Byte> {
    [v / 0x100 % 0x100, v % 0x100]
  }

  function Four(v: nat): seq<Byte> {
    [0, 0, 0, v % 0x100]
  }

  function EncodeBlock(p: Params): (bytes: seq<Byte>)
    ensures |bytes| == 23
  {
    [0x81, 0x80, 0x14] + ([0x05, 0x02] + Two(p.maxInfoTx) + ([0x06, 0x02] + Two(p.maxInfoRx)
      + ([0x07, 0x04] + Four(p.windowTx) + ([0x08, 0x04] + Four(p.windowRx)))))
  }

  method EncodeSnrmNegotiationBlock(p: Params, before: seq<Byte>) returns (output: seq<Byte>)
    ensures output == before + EncodeBlock(p)
  {
    output := before + [0x81, 0x80, 0x14];
    output := output + [0x05, 0x02] + Two(p.maxInfoTx);
    output := output + [0x06, 0x02] + Two(p.maxInfoRx);
    output := output + [0x07, 0x04] + Four(p.windowTx);
    output := output + [0x08, 0x04] + Four(p.windowRx);
  }

  // ----- The grammar of a block

  datatype Entry = Entry(tag: Byte, value: seq<Byte>)

  predicate WellFormed(e: Entry) {
    1 <= |e.value| <= 4
  }

  predicate Known(e: Entry) {
    5 <= e.tag <= 8
  }

  function PrintEntry(e: Entry): seq<Byte>
    requires WellFormed(e)
  {
    [e.tag, |e.value|] + e.value
  }

  predicate AllKnown(es: seq<Entry>) {
    forall i :: 0 <= i < |es| ==> WellFormed(es[i]) && Known(es[i])
  }

  function PrintEntries(es: seq<Entry>): seq<Byte>
    requires AllKnown(es)
  {
    if es == [] then [] else PrintEntry(es[0]) + PrintEntries(es[1..])
  }

  function Get(p: Params, tag: Byte): nat
    requires 5 <= tag <= 8
  {
    if tag == 5 then p.maxInfoTx else if tag == 6 then p.maxInfoRx else if tag == 7 then p.windowTx else p.windowRx
  }

  /** Parsing one printed entry and what follows it. */
  lemma ParseOne(e: Entry, rest: seq<Byte>, p: Params)
    requires WellFormed(e)
    ensures ParseEntries(PrintEntry(e) + rest, p) ==
      if Known(e) then ParseEntries(rest, SetParam(p, e.tag, BigEndian(e.value)).value) else Failure(UnsupportedFeature)
  {
    var block, n := PrintEntry(e) + rest, |e.value|;
    assert block[2..2 + n] == e.value && block[2 + n..] == rest;
  }

  /** The value of a tag, read from the end of the entries: the last one wins, and without one the
      default stays. */
  function Chosen(es: seq<Entry>, tag: Byte, default: nat): nat {
    if es == [] then default
    else if es[|es| - 1].tag == tag then BigEndian(es[|es| - 1].value)
    else Chosen(es[..|es| - 1], tag, default)
  }

  lemma {:induction false} ChosenCons(e: Entry, es: seq<Entry>, tag: Byte, default: nat)
    ensures Chosen([e] + es, tag, default) == Chosen(es, tag, if e.tag == tag then BigEndian(e.value) else default)
    decreases |es|
  {
    var all := [e] + es;
    if es == [] {
      assert all[..|all| - 1] == [];
    } else {
      assert all[..|all| - 1] == [e] + es[..|es| - 1];
      ChosenCons(e, es[..|es| - 1], tag, default);
    }
  }

  predicate LastWins(es: seq<Entry>, p: Params, q: Params) {
    forall tag: Byte :: 5 <= tag <= 8 ==> Get(q, tag) == Chosen(es, tag, Get(p, tag))
  }

  /** Every printed sequence of known entries is accepted, and the last entry of each tag wins. */
  lemma {:induction false} PrintedEntriesParse(es: seq<Entry>, p: Params)
    requires AllKnown(es)
    ensures var r := ParseEntries(PrintEntries(es), p);
      r.Success? && LastWins(es, p, r.value)
    decreases |es|
  {
    if es != [] {
      ParseOne(es[0], PrintEntries(es[1..]), p);
      var m := SetParam(p, es[0].tag, BigEndian(es[0].value)).value;
      PrintedEntriesParse(es[1..], m);
      assert [es[0]] + es[1..] == es;
      forall tag: Byte | 5 <= tag <= 8
        ensures Chosen(es, tag, Get(p, tag)) == Chosen(es[1..], tag, Get(m, tag))
      {
        ChosenCons(es[0], es[1..], tag, Get(p, tag));
      }
    }
  }

  /** The entries at the front of a block, up to where it stops being well formed. */
  function EntriesOf(block: seq<Byte>): (es: seq<Entry>)
    decreases |block|
  {
    if |block| < 2 || block[1] == 0 || block[1] > 4 || 2 + block[1] as int > |block| || !(5 <= block[0] <= 8) then []
    else
      var n := block[1] as int;
      [Entry(block[0], block[2..2 + n])] + EntriesOf(block[2 + n..])
  }

  lemma {:induction false} EntriesPrinted(block: seq<Byte>)
    ensures AllKnown(EntriesOf(block)) && PrintEntries(EntriesOf(block)) <= block
    decreases |block|
  {
    var es := EntriesOf(block);
    if es != [] {
      var n := block[1] as int;
      var rest := block[2 + n..];
      EntriesPrinted(rest);
      assert es[1..] == EntriesOf(rest);
      assert block == PrintEntry(es[0]) + rest;
    }
  }

  lemma {:induction false} ParsedEntriesPrint(block: seq<Byte>, p: Params)
    ensures ParseEntries(block, p).Success? <==> AllKnown(EntriesOf(block)) && PrintEntries(EntriesOf(block)) == block
    decreases |block|
  {
    var es := EntriesOf(block);
    EntriesPrinted(block);
    if es != [] {
      var n := block[1] as int;
      var rest := block[2 + n..];
      assert es[1..] == EntriesOf(rest);
      assert block == PrintEntry(es[0]) + rest;
      EntriesPrinted(rest);
      ParseOne(es[0], rest, p);
      ParsedEntriesPrint(rest, SetParam(p, es[0].tag, BigEndian(es[0].value)).value);
    }
  }

  /** The parser is exact: a block is accepted if and only if it is a sequence of well-formed
      entries with known tags, and then each parameter is that of its last entry or the default. */
  lemma ParserExact(block: seq<Byte>, p: Params)
    ensures ParseEntries(block, p).Success? <==> exists es :: AllKnown(es) && PrintEntries(es) == block
    ensures forall es :: AllKnown(es) && PrintEntries(es) == block ==>
                           ParseEntries(block, p).Success? && LastWins(es, p, ParseEntries(block, p).value)
  {
    ParsedEntriesPrint(block, p);
    forall es | AllKnown(es) && PrintEntries(es) == block
      ensures ParseEntries(block, p).Success? && LastWins(es, p, ParseEntries(block, p).value)
    {
      PrintedEntriesParse(es, p);
    }
  }

  ghost predicate StopsAtUnknown(block: seq<Byte>, es: seq<Entry>, e: Entry, rest: seq<Byte>) {
    AllKnown(es) && WellFormed(e) && !Known(e) && block == PrintEntries(es) + (PrintEntry(e) + rest)
  }

  lemma Regroup(a: seq<Byte>, b: seq<Byte>, c: seq<Byte>)
    ensures a + b + c == a + (b + c)
  {
  }

  lemma {:induction false} UnknownRefused(es: seq<Entry>, e: Entry, rest: seq<Byte>, p: Params)
    requires AllKnown(es) && WellFormed(e) && !Known(e)
    ensures ParseEntries(PrintEntries(es) + (PrintEntry(e) + rest), p) == Failure(UnsupportedFeature)
    decreases |es|
  {
    var tail := PrintEntry(e) + rest;
    if es == [] {
      assert [] + tail == tail;
      ParseOne(e, rest, p);
    } else {
      Regroup(PrintEntry(es[0]), PrintEntries(es[1..]), tail);
      ParseOne(es[0], PrintEntries(es[1..]) + tail, p);
      UnknownRefused(es[1..], e, rest, SetParam(p, es[0].tag, BigEndian(es[0].value)).value);
    }
  }

  lemma PrintEntriesCons(first: Entry, es: seq<Entry>, tail: seq<Byte>)
    requires AllKnown(es) && WellFormed(first) && Known(first)
    ensures AllKnown([first] + es)
    ensures PrintEntries([first] + es) + tail == PrintEntry(first) + (PrintEntries(es) + tail)
  {
    assert ([first] + es)[1..] == es;
    assert PrintEntries([first] + es) == PrintEntry(first) + PrintEntries(es);
  }

  lemma {:induction false} FindUnknown(block: seq<Byte>, p: Params) returns (es: seq<Entry>, e: Entry, rest: seq<Byte>)
    requires ParseEntries(block, p) == Failure(UnsupportedFeature)
    ensures StopsAtUnknown(block, es, e, rest)
    decreases |block|
  {
    var n := block[1] as int;
    e, rest := Entry(block[0], block[2..2 + n]), block[2 + n..];
    assert block == PrintEntry(e) + rest;
    if !Known(e) {
      es := [];
      assert PrintEntries(es) + (PrintEntry(e) + rest) == block;
    } else {
      var first, later := e, rest;
      ParseOne(e, rest, p);
      es, e, rest := FindUnknown(later, SetParam(p, e.tag, BigEndian(e.value)).value);
      PrintEntriesCons(first, es, PrintEntry(e) + rest);
      es := [first] + es;
    }
  }

  /** An unknown parameter is reported if and only if it is the first thing wrong with the block;
      every other fault is a format error. */
  lemma UnknownReported(block: seq<Byte>, p: Params)
    ensures ParseEntries(block, p) == Failure(UnsupportedFeature) <==>
      exists es, e, rest :: StopsAtUnknown(block, es, e, rest)
  {
    if ParseEntries(block, p) == Failure(UnsupportedFeature) {
      var es, e, rest := FindUnknown(block, p);
    }
    forall es, e, rest | StopsAtUnknown(block, es, e, rest)
      ensures ParseEntries(block, p) == Failure(UnsupportedFeature)
    {
      UnknownRefused(es, e, rest, p);
    }
  }

  // ----- What the printed block says

  /** The values as far as the block can carry them. */
  function Carried(p: Params): Params {
    Params(p.maxInfoTx % 0x1_0000, p.maxInfoRx % 0x1_0000, p.windowTx % 0x100, p.windowRx % 0x100)
  }

  lemma TwoValue(v: nat)
    ensures BigEndian(Two(v)) == v % 0x1_0000
  {
    var b := Two(v);
    assert b[..1] == [b[0]] && b[..1][..0] == [];
    assert BigEndian(b[..1]) == v / 0x100 % 0x100;
  }

  lemma FourValue(v: nat)
    ensures BigEndian(Four(v)) == v % 0x100
  {
    var b := Four(v);
    assert b[..3] == [0, 0, 0] && b[..3][..2] == [0, 0] && b[..2][..1] == [0] && b[..1][..0] == [];
    assert BigEndian([0]) == 0;
    assert BigEndian([0, 0]) == 0 by { assert [0, 0][..1] == [0]; }
    assert BigEndian([0, 0, 0]) == 0 by { assert [0, 0, 0][..2] == [0, 0]; }
  }

  /** The four entries of a printed block, one after the other. */
  lemma EntriesRoundTrip(p: Params)
    ensures ParseEntries(EncodeBlock(p)[3..], DefaultParams()) == Success(Carried(p))
  {
    var e1, e2 := Entry(5, Two(p.maxInfoTx)), Entry(6, Two(p.maxInfoRx));
    var e3, e4 := Entry(7, Four(p.windowTx)), Entry(8, Four(p.windowRx));
    var t3 := PrintEntry(e3) + (PrintEntry(e4) + []);
    assert EncodeBlock(p)[3..] == PrintEntry(e1) + (PrintEntry(e2) + t3);
    TwoValue(p.maxInfoTx);
    TwoValue(p.maxInfoRx);
    var d, q := DefaultParams(), Carried(p);
    ParseOne(e1, PrintEntry(e2) + t3, d);
    ParseOne(e2, t3, d.(maxInfoTx := q.maxInfoTx));
    WindowsRoundTrip(p, d.(maxInfoTx := q.maxInfoTx, maxInfoRx := q.maxInfoRx));
  }

  lemma WindowsRoundTrip(p: Params, d: Params)
    ensures ParseEntries(PrintEntry(Entry(7, Four(p.windowTx))) + (PrintEntry(Entry(8, Four(p.windowRx))) + []), d)
         == Success(d.(windowTx := p.windowTx % 0x100, windowRx := p.windowRx % 0x100))
  {
    FourValue(p.windowTx);
    FourValue(p.windowRx);
    ParseOne(Entry(7, Four(p.windowTx)), PrintEntry(Entry(8, Four(p.windowRx))) + [], d);
    ParseOne(Entry(8, Four(p.windowRx)), [], d.(windowTx := p.windowTx % 0x100));
  }

  /** Parsing a printed block returns its values, truncated to 16 and 8 bits, and stops where any
      user information begins. The values come back unchanged exactly when they are in range. */
  lemma BlockRoundTrip(p: Params, user: seq<Byte>)
    ensures ParseField(EncodeBlock(p) + user) == Success(Negotiated(Carried(p), 23))
    ensures (EncodeBlock(p) + user)[23..] == user
    ensures Carried(p) == p <==>
      p.maxInfoTx < 0x1_0000 && p.maxInfoRx < 0x1_0000 && p.windowTx < 0x100 && p.windowRx < 0x100
  {
    var block := EncodeBlock(p);
    var data := block + user;
    assert block[0] == 0x81 && block[1] == 0x80 && block[2] == 0x14;
    assert data[3..23] == block[3..];
    EntriesRoundTrip(p);
  }

  /** An Information field starts with a block if and only if it starts with these bytes. */
  predicate StartsBlock(data: seq<Byte>) {
    |data| >= 3 && data[0] == 0x81 && data[1] == 0x80
  }

  /** What is no block is left alone, and only that: parsing succeeds and consumes nothing. A block takes
      as many bytes as its third byte says, and it is a format error if there are fewer. */
  lemma BlockExact(data: seq<Byte>)
    ensures ParseField(data) == Success(Negotiated(DefaultParams(), 0)) <==> !StartsBlock(data)
    ensures ParseField(data).Success? && ParseField(data).value.consumed == 0 <==> !StartsBlock(data)
    ensures StartsBlock(data) && ParseField(data).Success? ==> ParseField(data).value.consumed == 3 + data[2] as int <= |data|
    ensures StartsBlock(data) && 3 + data[2] as int > |data| ==> ParseField(data) == Failure(InvalidFrameFormat)
    ensures StartsBlock(data) && 3 + data[2] as int <= |data| ==>
      var entries := ParseEntries(data[3..3 + data[2] as int], Params(128, 128, 1, 1));
      if entries.Success? then ParseField(data) == Success(Negotiated(entries.value, 3 + data[2] as int))
      else ParseField(data) == Failure(entries.status)
  {
  }

  /** The default parameters as they are printed. */
  lemma DefaultBlock()
    ensures EncodeBlock(DefaultParams()) == [0x81, 0x80, 0x14, 0x05, 0x02, 0x00, 0x80, 0x06, 0x02, 0x00, 0x80,
                                             0x07, 0x04, 0x00, 0x00, 0x00, 0x01, 0x08, 0x04, 0x00, 0x00, 0x00, 0x01]
  {
  }

  lemma OneByte(v: Byte)
    ensures BigEndian([v]) == v
  {
    assert [v][..0] == [];
  }

  /** The documented form of the same, with lengths of one byte. */
  lemma DocumentedBlock(block: seq<Byte>)
    requires block == [0x81, 0x80, 0x12, 0x05, 0x01, 0x80, 0x06, 0x01, 0x80,
                       0x07, 0x04, 0x00, 0x00, 0x00, 0x01, 0x08, 0x04, 0x00, 0x00, 0x00, 0x01]
    ensures ParseField(block) == Success(Negotiated(Params(128, 128, 1, 1), 21))
  {
    var windows := block[9..];
    assert block[3..21] == PrintEntry(Entry(5, [0x80])) + (PrintEntry(Entry(6, [0x80])) + windows);
    assert windows == PrintEntry(Entry(7, Four(1))) + (PrintEntry(Entry(8, Four(1))) + []);
    ShortLengths(windows);
  }

  lemma ShortLengths(windows: seq<Byte>)
    requires windows == PrintEntry(Entry(7, Four(1))) + (PrintEntry(Entry(8, Four(1))) + [])
    ensures ParseEntries(PrintEntry(Entry(5, [0x80])) + (PrintEntry(Entry(6, [0x80])) + windows), DefaultParams())
         == Success(Params(128, 128, 1, 1))
  {
    var d := DefaultParams();
    OneByte(0x80);
    ParseOne(Entry(5, [0x80]), PrintEntry(Entry(6, [0x80])) + windows, d);
    ParseOne(Entry(6, [0x80]), windows, d);
    WindowsRoundTrip(d, d);
  }

  // ----- Negotiation

  /** What a station can do: lengths and windows for each direction. */
  datatype Capability = Capability(lengthTransmit: nat, lengthReceive: nat, windowTransmit: Byte, windowReceive: Byte)

  function DefaultCapability(): Capability {
    Capability(DEFAULT_MAX_INFO, DEFAULT_MAX_INFO, DEFAULT_WINDOW, DEFAULT_WINDOW)
  }

  /** Zero fields stand for the protocol defaults. */
  function Normalise(c: Capability): Capability {
    Capability(
      if c.lengthTransmit == 0 then DEFAULT_MAX_INFO else c.lengthTransmit,
      if c.lengthReceive == 0 then DEFAULT_MAX_INFO else c.lengthReceive,
      if c.windowTransmit == 0 then DEFAULT_WINDOW else c.windowTransmit,
      if c.windowReceive == 0 then DEFAULT_WINDOW else c.windowReceive)
  }

  /** The secondary's answer: what the primary transmits is bounded by what the secondary receives,
      and the other way round. */
  function NegotiateParams(proposed: Params, local: Capability): Params {
    Params(
      Min(proposed.maxInfoTx, local.lengthReceive),
      Min(proposed.maxInfoRx, local.lengthTransmit),
      Min(proposed.windowTx, local.windowReceive),
      Min(proposed.windowRx, local.windowTransmit))
  }

  /** A capability as the primary proposes it. */
  function Proposal(c: Capability): Params {
    Params(c.lengthTransmit, c.lengthReceive, c.windowTransmit, c.windowReceive)
  }

  /** Zero fields, and only those, become 128 bytes or a window of 1. */
  lemma NormalisedFields(c: Capability)
    ensures var n := Normalise(c);
      && n.lengthTransmit == (if c.lengthTransmit == 0 then 128 else c.lengthTransmit)
      && n.lengthReceive == (if c.lengthReceive == 0 then 128 else c.lengthReceive)
      && n.windowTransmit == (if c.windowTransmit == 0 then 1 else c.windowTransmit)
      && n.windowReceive == (if c.windowReceive == 0 then 1 else c.windowReceive)
    ensures DefaultCapability() == Normalise(Capability(0, 0, 0, 0)) == Capability(128, 128, 1, 1)
  {
  }
}
