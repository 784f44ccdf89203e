/** The order in which packets may stand on a line. */
module LinkLines {
  import opened Link

  /** Where a packet stands among those of one connection: the answer to the request comes first, then
      what is numbered, then a farewell, then the release of the other side, and last the request for
      the next connection. */
  function Rank(m: Meaning): nat {
    match m
    case Response => 0
    case Data(_, _, _) => 1
    case Ready(_) => 1
    case Farewell => 2
    case Release => 3
    case Request => 4
  }

  /** The least rank that may follow. Only numbered packets come more than once. */
  function After(rank: nat): nat {
    if rank == 1 then 1 else rank + 1
  }

  /** Packets of these ranks, in order. */
  predicate Line(wire: seq<Packet>, low: nat, high: nat)
    decreases |wire|
  {
    wire == [] || (low <= Rank(wire[0].meaning) <= high && Line(wire[1..], After(Rank(wire[0].meaning)), high))
  }

  lemma {:induction false} LineWiden(wire: seq<Packet>, low: nat, high: nat, low': nat, high': nat)
    requires Line(wire, low, high) && low' <= low && high <= high'
    ensures Line(wire, low', high')
    decreases |wire|
  {
    if wire != [] {
      LineWiden(wire[1..], After(Rank(wire[0].meaning)), high, After(Rank(wire[0].meaning)), high');
    }
  }

  /** A packet of a later rank, or one more numbered packet, at the end. */
  lemma {:induction false} LineSend(wire: seq<Packet>, low: nat, high: nat, p: Packet)
    requires Line(wire, low, high) && low <= Rank(p.meaning)
    requires high < Rank(p.meaning) || high == Rank(p.meaning) == 1
    ensures Line(wire + [p], low, Rank(p.meaning))
    decreases |wire|
  {
    if wire == [] {
      assert [p][1..] == [];
    } else {
      assert (wire + [p])[1..] == wire[1..] + [p];
      LineSend(wire[1..], After(Rank(wire[0].meaning)), high, p);
    }
  }

  lemma {:induction false} LineLose(wire: seq<Packet>, i: nat, low: nat, high: nat)
    requires Line(wire, low, high) && i < |wire|
    ensures Line(wire[..i] + wire[i + 1..], low, high)
    decreases |wire|
  {
    var cut := wire[..i] + wire[i + 1..];
    if i == 0 {
      assert cut == wire[1..];
      LineWiden(wire[1..], After(Rank(wire[0].meaning)), high, low, high);
    } else {
      assert cut[0] == wire[0] && cut[1..] == wire[1..][..i - 1] + wire[1..][i..];
      LineLose(wire[1..], i - 1, After(Rank(wire[0].meaning)), high);
    }
  }

  lemma LineEmpty(wire: seq<Packet>, low: nat, high: nat)
    requires Line(wire, low, high) && high < low
    ensures wire == []
  {
  }
}
