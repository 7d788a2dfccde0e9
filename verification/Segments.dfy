/** How a parallel transfer splits a file: contiguous ranges, the last taking the remainder. */
module Segments {
  import opened Bytes

  datatype Range = Range(start: nat, len: nat)

  function SplitRange(total: nat, streams: nat, i: nat): Range
    requires i < streams
  {
    var seg := total / streams;
    StartWithin(total, streams, i);
    Range(i * seg, if i == streams - 1 then total - i * seg else seg)
  }

  lemma StartWithin(total: nat, streams: nat, i: nat)
    requires i < streams
    ensures 0 <= i * (total / streams) <= total
    ensures i < streams - 1 ==> i * (total / streams) + total / streams == (i + 1) * (total / streams) <= total
  {
    var seg := total / streams;
    assert streams * seg <= total;
    MultiplesGrow(i, streams, seg);
    if i < streams - 1 {
      MultiplesGrow(i + 1, streams, seg);
      assert (i + 1) * seg == i * seg + seg;
    }
  }

  function Ranges(total: nat, streams: nat): (ranges: seq<Range>)
    requires streams > 0
    ensures |ranges| == streams
  {
    seq(streams, i requires 0 <= i < streams => SplitRange(total, streams, i))
  }

  /** The ranges are a partition of the file: adjacent, from its start to its end. */
  lemma RangesAreAdjacent(total: nat, streams: nat)
    requires streams > 0
    ensures var ranges := Ranges(total, streams);
            && ranges[0].start == 0
            && ranges[streams - 1].start + ranges[streams - 1].len == total
            && forall i :: 0 <= i < streams - 1 ==> ranges[i + 1].start == ranges[i].start + ranges[i].len
  {
    forall i | 0 <= i < streams - 1
      ensures Ranges(total, streams)[i + 1].start == Ranges(total, streams)[i].start + Ranges(total, streams)[i].len
    {
      StartWithin(total, streams, i);
    }
    StartWithin(total, streams, streams - 1);
  }

  function Lengths(total: nat, streams: nat): (lens: seq<nat>)
    requires streams > 0
    ensures |lens| == streams
  {
    seq(streams, i requires 0 <= i < streams => SplitRange(total, streams, i).len)
  }

  lemma {:induction false} PrefixLengths(total: nat, streams: nat, k: nat)
    requires k < streams
    ensures Sum(Lengths(total, streams)[..k]) == SplitRange(total, streams, k).start
  {
    if k > 0 {
      PrefixLengths(total, streams, k - 1);
      StartWithin(total, streams, k - 1);
      assert Lengths(total, streams)[..k] == Lengths(total, streams)[..k - 1] + [Lengths(total, streams)[k - 1]];
      SumAppend(Lengths(total, streams)[..k - 1], Lengths(total, streams)[k - 1]);
    }
  }

  lemma LengthsSumToTotal(total: nat, streams: nat)
    requires streams > 0
    ensures Sum(Lengths(total, streams)) == total
  {
    var k := streams - 1;
    PrefixLengths(total, streams, k);
    assert Lengths(total, streams) == Lengths(total, streams)[..k] + [Lengths(total, streams)[k]];
    SumAppend(Lengths(total, streams)[..k], Lengths(total, streams)[k]);
  }

  /** Every stream gets a byte exactly when there are at least as many bytes as streams. */
  lemma NonEmptyIffEnoughBytes(total: nat, streams: nat)
    requires streams > 0
    ensures (forall i :: 0 <= i < streams ==> Ranges(total, streams)[i].len > 0) <==> streams <= total
  {
    LastLength(total, streams);
    WholeShare(total, streams);
    if streams > total {
      assert Ranges(total, streams)[0].len == if streams == 1 then total else 0;
    }
  }

  /** The last stream takes its share and the remainder. */
  lemma LastLength(total: nat, streams: nat)
    requires streams > 0
    ensures total - (streams - 1) * (total / streams) == total / streams + total % streams
  {
    assert total == streams * (total / streams) + total % streams;
    assert (streams - 1) * (total / streams) == streams * (total / streams) - total / streams;
  }

  lemma WholeShare(total: nat, streams: nat)
    requires streams > 0
    ensures total / streams > 0 <==> streams <= total
  {
  }

  /** The split is even: all ranges but the last are equally long, and the last is longer by less than one byte per stream. */
  lemma RangesAreEven(total: nat, streams: nat, i: nat, j: nat)
    requires i < j < streams
    ensures var lens := Lengths(total, streams);
            lens[i] <= lens[j] < lens[i] + streams && (j < streams - 1 ==> lens[i] == lens[j])
  {
    LastLength(total, streams);
  }

  /** The stream a file position belongs to. */
  lemma {:induction false} Owner(total: nat, streams: nat, p: nat) returns (i: nat)
    requires streams > 0 && p < total
    ensures i < streams
    ensures SplitRange(total, streams, i).start <= p < SplitRange(total, streams, i).start + SplitRange(total, streams, i).len
  {
    i := streams - 1;
    while p < SplitRange(total, streams, i).start
      invariant i < streams
      invariant p < SplitRange(total, streams, i).start + SplitRange(total, streams, i).len
      decreases i
    {
      StartWithin(total, streams, i - 1);
      i := i - 1;
    }
  }

  /** Ranges of different streams have no byte in common. */
  lemma {:induction false} RangesAreDisjoint(total: nat, streams: nat, i: nat, j: nat)
    requires i < j < streams
    ensures SplitRange(total, streams, i).start + SplitRange(total, streams, i).len <= SplitRange(total, streams, j).start
    decreases j - i
  {
    StartWithin(total, streams, i);
    if i + 1 < j {
      RangesAreDisjoint(total, streams, i + 1, j);
    }
  }
}
