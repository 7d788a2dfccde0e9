/** Bytes, files and the few sequence functions shared by the transfer modules. */
module Bytes {

  newtype byte = x: int | 0 <= x < 256

  function Min(a: nat, b: nat): nat {
    if a < b then a else b
  }

  function Max(a: nat, b: nat): nat {
    if a < b then b else a
  }

  lemma MultiplesGrow(a: nat, b: nat, unit: nat)
    requires a <= b
    ensures 0 <= a * unit <= b * unit
  {
  }

  /** `n as u32` for an unsigned value: keeps the low 32 bits. */
  function AsU32(n: nat): nat {
    n % 0x1_0000_0000
  }

  /**
   * The bytes of a file after writing `data` at offset `off`. Writing past the
   * end fills the gap with zeros; an empty write changes nothing.
   */
  function WriteAt(file: seq<byte>, off: nat, data: seq<byte>): (after: seq<byte>)
    ensures |after| == if data == [] then |file| else Max(|file|, off + |data|)
    ensures forall p :: 0 <= p < |after| ==>
              after[p] == if off <= p < off + |data| then data[p - off]
                          else if p < |file| then file[p] else 0
  {
    if data == [] then file
    else if |file| < off then file + seq(off - |file|, _ => 0) + data
    else if |file| <= off + |data| then file[..off] + data
    else file[..off] + data + file[off + |data|..]
  }

  /** Appending in two adjacent writes is the same as one longer write. */
  lemma WriteAtAdjacent(file: seq<byte>, off: nat, first: seq<byte>, second: seq<byte>)
    ensures WriteAt(WriteAt(file, off, first), off + |first|, second) == WriteAt(file, off, first + second)
  {
  }

  /** `file` and `source` hold the same `n` bytes from `base` on. */
  ghost predicate Matches(file: seq<byte>, source: seq<byte>, base: nat, n: nat) {
    n > 0 ==>
      && base + n <= |file| && base + n <= |source|
      && forall p :: base <= p < base + n ==> file[p] == source[p]
  }

  ghost predicate TakenFrom(data: seq<byte>, source: seq<byte>, off: nat) {
    data != [] ==> off + |data| <= |source| && data == source[off..off + |data|]
  }

  /** Two prefixes of the same stretch of a source differ by the source's own bytes. */
  lemma GrowthIsTakenFrom(source: seq<byte>, base: nat, before: seq<byte>, after: seq<byte>)
    requires TakenFrom(before, source, base) && TakenFrom(after, source, base) && |before| <= |after|
    ensures after == before + after[|before|..] && TakenFrom(after[|before|..], source, base + |before|)
  {
    if |before| < |after| {
      assert after[|before|..] == source[base + |before|..base + |after|];
      assert after[..|before|] == source[base..base + |before|];
    }
  }

  /** A part of what was taken from a source is taken from it too. */
  lemma TakenFromPart(data: seq<byte>, src: seq<byte>, off: nat, local: seq<byte>, base: nat)
    requires data != [] && TakenFrom(data, src, off) && TakenFrom(src, local, base)
    ensures TakenFrom(data, local, base + off)
  {
    assert data == src[off..off + |data|] && src == local[base..base + |src|];
    forall k | 0 <= k < |data|
      ensures data[k] == local[base + off + k]
    {
      assert data[k] == src[off + k];
    }
  }

  /** Writing the source's own bytes at their own place never disturbs a match, wherever they land. */
  lemma OwnBytesKeepMatches(file: seq<byte>, source: seq<byte>, off: nat, data: seq<byte>, base: nat, n: nat)
    requires Matches(file, source, base, n) && TakenFrom(data, source, off)
    ensures Matches(WriteAt(file, off, data), source, base, n)
  {
  }

  lemma OwnBytesExtendMatch(file: seq<byte>, source: seq<byte>, base: nat, n: nat, data: seq<byte>)
    requires Matches(file, source, base, n) && TakenFrom(data, source, base + n)
    ensures Matches(WriteAt(file, base + n, data), source, base, n + |data|)
  {
  }

  lemma LastOrEarlier<T>(s: seq<T>, x: T)
    requires s != []
    ensures x in s <==> x in s[..|s| - 1] || x == s[|s| - 1]
  {
    assert s == s[..|s| - 1] + [s[|s| - 1]];
  }

  /** Sum of a sequence, used for segment lengths and progress positions. */
  function Sum(xs: seq<nat>): nat {
    if xs == [] then 0 else xs[0] + Sum(xs[1..])
  }

  lemma {:induction false} SumUpdate(xs: seq<nat>, i: nat, v: nat)
    requires i < |xs|
    ensures Sum(xs[i := v]) == Sum(xs) - xs[i] + v
  {
    if i == 0 {
      assert xs[0 := v][1..] == xs[1..];
    } else {
      assert xs[i := v][1..] == xs[1..][i - 1 := v];
      SumUpdate(xs[1..], i - 1, v);
    }
  }

  lemma {:induction false} SumMonotone(xs: seq<nat>, ys: seq<nat>)
    requires |xs| == |ys|
    requires forall i :: 0 <= i < |xs| ==> xs[i] <= ys[i]
    ensures Sum(xs) <= Sum(ys)
    ensures Sum(xs) == Sum(ys) ==> xs == ys
  {
    if xs != [] {
      SumMonotone(xs[1..], ys[1..]);
      if Sum(xs) == Sum(ys) {
        assert xs == [xs[0]] + xs[1..];
        assert ys == [ys[0]] + ys[1..];
      }
    }
  }

  lemma {:induction false} SumAppend(xs: seq<nat>, v: nat)
    ensures Sum(xs + [v]) == Sum(xs) + v
  {
    if xs == [] {
      assert xs + [v] == [v];
    } else {
      assert (xs + [v])[1..] == xs[1..] + [v];
      SumAppend(xs[1..], v);
    }
  }

  lemma {:induction false} SumScaled(xs: seq<nat>, ys: seq<nat>, k: nat, c: nat)
    requires |xs| == |ys| && forall i :: 0 <= i < |xs| ==> ys[i] <= k * xs[i] + c
    ensures Sum(ys) <= k * Sum(xs) + c * |xs|
  {
    if xs != [] {
      SumScaled(xs[1..], ys[1..], k, c);
      Scaled(xs[0], Sum(xs[1..]), |xs| - 1, k, c);
    }
  }

  lemma Scaled(x: nat, rest: nat, n: nat, k: nat, c: nat)
    ensures k * (x + rest) + c * (n + 1) == (k * x + c) + (k * rest + c * n)
  {
  }

  lemma {:induction false} SumZero(n: nat)
    ensures Sum(seq(n, _ => 0)) == 0
  {
    if n > 0 {
      assert seq(n, _ => 0)[1..] == seq(n - 1, _ => 0);
      SumZero(n - 1);
    }
  }
}
