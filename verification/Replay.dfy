/** The per-connection sequence check on 32-bit numbers that wrap around. */
module Replay {

  const WORD := 0x1_0000_0000
  const HALF := 0x8000_0000

  type uint32 = n: int | 0 <= n < 0x1_0000_0000

  datatype Guard = Guard(last: uint32, initialized: bool)

  const NEW_GUARD := Guard(0, false)

  /** The guard's decision on a number, and the guard afterwards. */
  function Judged(g: Guard, n: uint32): (Guard, bool) {
    if g.initialized && n <= g.last && g.last - n < 0x7FFF_FFFF then (g, false)
    else (Guard(n, true), true)
  }

  class ReplayProtection {
    var lastSeqNum: uint32
    var initialized: bool

    ghost function View(): Guard
      reads this
    {
      Guard(lastSeqNum, initialized)
    }

    constructor ()
      ensures View() == NEW_GUARD
    {
      lastSeqNum := 0;
      initialized := false;
    }

    method Validate(seqNum: uint32) returns (ok: bool)
      modifies this
      ensures (View(), ok) == Judged(old(View()), seqNum)
    {
      if !initialized {
        lastSeqNum := seqNum;
        initialized := true;
        return true;
      }
      var diff: uint32;
      if seqNum > lastSeqNum {
        diff := seqNum - lastSeqNum;
      } else {
        diff := lastSeqNum - seqNum;
        if diff < 0x7FFF_FFFF {
          return false;
        }
      }
      lastSeqNum := seqNum;
      return true;
    }
  }

  /** The numbers of a sequence that are accepted, in order. */
  function Accepted(g: Guard, ns: seq<uint32>): seq<uint32>
    decreases |ns|
  {
    if ns == [] then []
    else
      var (g', ok) := Judged(g, ns[0]);
      (if ok then [ns[0]] else []) + Accepted(g', ns[1..])
  }

  /** The sender's counter: one more each packet, wrapping at 32 bits. */
  function Counter(first: uint32, k: nat): uint32 {
    (first + k) % WORD
  }

  function CounterRun(first: uint32, n: nat): (r: seq<uint32>)
    ensures |r| == n && forall k :: 0 <= k < n ==> r[k] == Counter(first, k)
  {
    if n == 0 then [] else CounterRun(first, n - 1) + [Counter(first, n - 1)]
  }

  lemma NextCount(first: uint32, k: nat)
    ensures Counter(first, k + 1) == if Counter(first, k) == WORD - 1 then 0 else Counter(first, k) + 1
  {
  }

  /** An honest counter is accepted forever, over every wrap-around. */
  lemma {:induction false} HonestCounter(g: Guard, ns: seq<uint32>, first: uint32, from: nat)
    requires forall k :: 0 <= k < |ns| ==> ns[k] == Counter(first, from + k)
    requires g.initialized ==> from > 0 && g.last == Counter(first, from - 1)
    ensures Accepted(g, ns) == ns
    decreases |ns|
  {
    if ns != [] {
      assert ns[0] == Counter(first, from + 0);
      if g.initialized {
        NextCount(first, from - 1);
      }
      forall k | 0 <= k < |ns[1..]|
        ensures ns[1..][k] == Counter(first, from + 1 + k)
      {
        assert ns[1..][k] == ns[k + 1] == Counter(first, from + (k + 1));
      }
      HonestCounter(Guard(ns[0], true), ns[1..], first, from + 1);
      assert [ns[0]] + ns[1..] == ns;
    }
  }

  lemma {:induction false} HonestSender(first: uint32, n: nat)
    ensures Accepted(NEW_GUARD, CounterRun(first, n)) == CounterRun(first, n)
  {
    HonestCounter(NEW_GUARD, CounterRun(first, n), first, 0);
  }

  /** Greater in serial number arithmetic on 32 bits, section 3.2 of RFC 1982. */
  predicate SerialGreater(n: uint32, last: uint32) {
    (n > last && n - last < HALF) || (n < last && last - n > HALF)
  }

  /** Every serially greater number is accepted; what else is accepted is named exactly. */
  lemma SerialGreaterAccepted(g: Guard, n: uint32)
    requires g.initialized
    ensures Judged(g, n).1 <==>
      SerialGreater(n, g.last)
      || (n > g.last && n - g.last >= HALF)
      || (n < g.last && HALF - 1 <= g.last - n <= HALF)
  {
  }

  ghost predicate Increasing(ns: seq<uint32>) {
    forall i, j :: 0 <= i < j < |ns| ==> ns[i] < ns[j]
  }

  lemma {:induction false} WindowIncreasing(g: Guard, ns: seq<uint32>, low: uint32)
    requires g.initialized && low <= g.last <= low + HALF - 2
    requires forall k :: 0 <= k < |ns| ==> low <= ns[k] <= low + HALF - 2
    ensures Increasing([g.last] + Accepted(g, ns))
    decreases |ns|
  {
    if ns != [] {
      var (g', ok) := Judged(g, ns[0]);
      assert forall k :: 0 <= k < |ns[1..]| ==> ns[1..][k] == ns[k + 1];
      WindowIncreasing(g', ns[1..], low);
      if ok {
        assert ns[0] > g.last;
        var rest := [ns[0]] + Accepted(g', ns[1..]);
        assert Accepted(g, ns) == rest;
        forall i, j | 0 <= i < j < |[g.last] + rest|
          ensures ([g.last] + rest)[i] < ([g.last] + rest)[j]
        {
          assert rest[0] <= rest[j - 1];
          assert i > 0 ==> rest[i - 1] < rest[j - 1];
        }
      } else {
        assert Accepted(g, ns) == Accepted(g', ns[1..]);
      }
    }
  }

  /**
   When all numbers presented lie within 2^31 - 2 above the first one, the accepted numbers
   strictly increase, so none is accepted twice.
   */
  lemma {:induction false} NoReplayInWindow(ns: seq<uint32>)
    requires ns != [] && forall k :: 0 <= k < |ns| ==> ns[0] <= ns[k] <= ns[0] + HALF - 2
    ensures Increasing(Accepted(NEW_GUARD, ns))
  {
    var g := Guard(ns[0], true);
    assert forall k :: 0 <= k < |ns[1..]| ==> ns[1..][k] == ns[k + 1];
    WindowIncreasing(g, ns[1..], ns[0]);
    assert Accepted(NEW_GUARD, ns) == [ns[0]] + Accepted(g, ns[1..]);
  }

  predicate NoRepeat(ns: seq<uint32>) {
    forall i, j :: 0 <= i < j < |ns| ==> ns[i] != ns[j]
  }

  predicate AllIn(ns: seq<uint32>, lo: uint32, hi: uint32) {
    forall k :: 0 <= k < |ns| ==> lo <= ns[k] <= hi
  }

  /** What lets a number in again: one presented in between that is half the number space ahead. */
  lemma ReplayBeyondWindow(lo: uint32, hi: uint32)
    requires hi - lo >= HALF - 1
    ensures Accepted(NEW_GUARD, [lo, hi, lo]) == [lo, hi, lo]
  {
    var g0, g1 := Guard(lo, true), Guard(hi, true);
    assert [lo, hi, lo][1..] == [hi, lo] && [hi, lo][1..] == [lo] && [lo][1..] == [];
    assert Accepted(g1, [lo]) == [lo] + Accepted(g0, []);
    assert Accepted(g0, [hi, lo]) == [hi] + Accepted(g1, [lo]);
    assert Accepted(NEW_GUARD, [lo, hi, lo]) == [lo] + Accepted(g0, [hi, lo]);
  }

  lemma {:induction false} AcceptedInWindow(ns: seq<uint32>, lo: uint32, hi: uint32)
    requires lo <= hi <= lo + HALF - 2 && AllIn(ns, lo, hi)
    ensures NoRepeat(Accepted(NEW_GUARD, ns))
  {
    if ns != [] {
      var g := Guard(ns[0], true);
      assert forall k :: 0 <= k < |ns[1..]| ==> ns[1..][k] == ns[k + 1];
      WindowIncreasing(g, ns[1..], lo);
      assert Accepted(NEW_GUARD, ns) == [ns[0]] + Accepted(g, ns[1..]);
    }
  }

  /**
   Among numbers from [lo, hi], in any order and number, none is ever accepted twice exactly
   when the range spans at most 2^31 - 2.
   */
  lemma NoReplayExactly(lo: uint32, hi: uint32)
    requires lo <= hi
    ensures (forall ns :: AllIn(ns, lo, hi) ==> NoRepeat(Accepted(NEW_GUARD, ns))) <==> hi - lo <= HALF - 2
  {
    if hi - lo <= HALF - 2 {
      forall ns | AllIn(ns, lo, hi)
        ensures NoRepeat(Accepted(NEW_GUARD, ns))
      {
        AcceptedInWindow(ns, lo, hi);
      }
    } else {
      var ns := [lo, hi, lo];
      ReplayBeyondWindow(lo, hi);
      assert AllIn(ns, lo, hi) && ns[0] == ns[2];
    }
  }

  /** Right after a wrap-around the packet before it is let in a second time. */
  lemma ReplayAfterRollover()
    ensures Accepted(NEW_GUARD, [0xFFFF_FFFF, 0, 0xFFFF_FFFF]) == [0xFFFF_FFFF, 0, 0xFFFF_FFFF]
  {
    var top: uint32, zero: uint32 := 0xFFFF_FFFF, 0;
    var g0, g1 := Guard(top, true), Guard(zero, true);
    assert [top, zero, top][1..] == [zero, top] && [zero, top][1..] == [top] && [top][1..] == [];
    assert Accepted(g1, [top]) == [top] + Accepted(g0, []);
    assert Accepted(g0, [zero, top]) == [zero] + Accepted(g1, [top]);
    assert Accepted(NEW_GUARD, [top, zero, top]) == [top] + Accepted(g0, [zero, top]);
  }
}
