/** Doubling back-off with a cap, as both the uplink and the leaf rotator use it. */
module Backoff {
  import opened Basics

  /** One doubling, cut off at the cap: the loop's two statements. */
  function Doubled(b: int, cap: int): int {
    if b * 2 > cap then cap else b * 2
  }

  /** The back-off after k failures in a row, in closed form. */
  function Closed(start: int, cap: int, k: nat): int {
    if k == 0 then start else Min(start * Pow2(k), cap)
  }

  lemma DoubledIsClosed(start: int, cap: int, k: nat)
    requires start > 0 && cap > 0
    ensures Doubled(Closed(start, cap, k), cap) == Closed(start, cap, k + 1)
  {
    assert start * Pow2(k + 1) == 2 * (start * Pow2(k));
    if k > 0 && start * Pow2(k) >= cap {
      assert start * Pow2(k + 1) >= cap;
    }
  }

  /** The cap holds from the start if and only if the configuration is in order. */
  lemma ClosedIsCappedExactly(start: int, cap: int)
    requires start > 0 && cap > 0
    ensures (forall k: nat :: Closed(start, cap, k) == Min(start * Pow2(k), cap)) <==> start <= cap
  {
    assert Closed(start, cap, 0) == start && start * Pow2(0) == start;
  }
}

/** Reconnecting the uplink: how long to wait after each session. */
module Reconnect {
  import opened Basics
  import opened Backoff

  /** A session that ended: had it received a heartbeat ack, and what the random
      source drew for the jitter afterwards. */
  datatype Session = Session(acked: bool, draw: nat)

  /** How many of the latest sessions in a row died without an ack. */
  function Unacked(ss: seq<Session>): nat {
    if ss == [] || ss[|ss| - 1].acked then 0 else 1 + Unacked(ss[..|ss| - 1])
  }

  /** The back-off that applies after session i of a history. */
  function Base(minBackoff: int, maxBackoff: int, ss: seq<Session>, i: nat): int
    requires i < |ss|
  {
    if ss[i].acked then minBackoff else Closed(minBackoff, maxBackoff, Unacked(ss[..i]))
  }

  method Jitter(backoff: int, draw: nat) returns (j: int)
    requires backoff > 0
    ensures 0 <= j <= backoff / 2
    ensures draw <= backoff / 2 ==> j == draw
  {
    j := draw % (backoff / 2 + 1);
  }

  /** The reconnect loop over the sessions of one life of the agent. */
  method Waits(minBackoff: int, maxBackoff: int, ss: seq<Session>) returns (waits: seq<int>)
    requires minBackoff > 0 && maxBackoff > 0
    ensures |waits| == |ss|
    ensures forall i :: 0 <= i < |ss| ==>
              var b := Base(minBackoff, maxBackoff, ss, i);
              b <= waits[i] <= b + b / 2 && (ss[i].draw <= b / 2 ==> waits[i] == b + ss[i].draw)
  {
    var backoff := minBackoff;
    waits := [];
    for i := 0 to |ss|
      invariant |waits| == i
      invariant backoff == Closed(minBackoff, maxBackoff, Unacked(ss[..i])) && backoff > 0
      invariant forall j :: 0 <= j < i ==>
                  var b := Base(minBackoff, maxBackoff, ss, j);
                  b <= waits[j] <= b + b / 2 && (ss[j].draw <= b / 2 ==> waits[j] == b + ss[j].draw)
    {
      assert ss[..i + 1][..i] == ss[..i];
      if ss[i].acked {
        backoff := minBackoff;
      }
      assert backoff == Base(minBackoff, maxBackoff, ss, i);
      var jitter := Jitter(backoff, ss[i].draw);
      waits := waits + [backoff + jitter];
      if !ss[i].acked {
        DoubledIsClosed(minBackoff, maxBackoff, Unacked(ss[..i]));
        backoff := backoff * 2;
        if backoff > maxBackoff {
          backoff := maxBackoff;
        }
      }
    }
  }

  /** The wait after the k-th un-acked session in a row (k counted from 1) starts
      from min(Min * 2^(k-1), Max), in every history; after an acked one from Min. */
  lemma KthWait(minBackoff: int, maxBackoff: int, ss: seq<Session>, i: nat)
    requires 0 < minBackoff <= maxBackoff && i < |ss|
    ensures var k := Unacked(ss[..i + 1]);
            && (ss[i].acked <==> k == 0)
            && Base(minBackoff, maxBackoff, ss, i)
               == if k == 0 then minBackoff else Min(minBackoff * Pow2(k - 1), maxBackoff)
  {
    assert ss[..i + 1][..i] == ss[..i];
    ClosedIsCappedExactly(minBackoff, maxBackoff);
  }
}
