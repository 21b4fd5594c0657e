/** Choosing scrypt parameters from an operations and a memory limit, and the
bounds they keep (section 2 of RFC 7914). The limits are 64-bit unsigned
integers; nothing computed from them below can leave that range, since they
are only divided. */
module Scrypt {
  import opened Basics

  newtype Uint64 = x: int | 0 <= x < 0x1_0000_0000_0000_0000

  const MIN_OPS: int := 32768
  const R: int := 8
  const MAX_RP: int := 0x3fffffff

  lemma {:induction false} Pow2Monotone(j: nat, k: nat)
    requires j <= k
    ensures Pow2(j) <= Pow2(k)
    decreases k
  {
    if j < k {
      Pow2Monotone(j, k - 1);
    }
  }

  lemma Pow2At59()
    ensures Pow2(10) == 1024
    ensures Pow2(59) == 0x800_0000_0000_0000
  {
    assert Pow2(10) == 1024;
    assert Pow2(20) == 1024 * 1024;
    assert Pow2(30) == 0x4000_0000;
    assert Pow2(40) == 0x100_0000_0000;
    assert Pow2(50) == 0x4_0000_0000_0000;
  }

  /** The loop that looks for the largest power of two; never below 2^1. */
  method Pick(maxN: int) returns (ln: nat)
    requires 0 <= maxN <= 0x800_0000_0000_0000
    ensures 1 <= ln < 63
    ensures Chosen(Pow2(ln), maxN)
  {
    Pow2At59();
    ln := 1;
    while ln < 63 && Pow2(ln) <= maxN / 2
      invariant 1 <= ln <= 59
      invariant maxN >= 2 ==> Pow2(ln) <= maxN
      invariant maxN < 2 ==> ln == 1
      decreases 63 - ln
    {
      ln := ln + 1;
    }
  }

  /** The largest power of two within a budget, but at least two. */
  predicate Chosen(n: int, budget: int) {
    n >= 2 && (budget >= 2 ==> n <= budget < 2 * n) && (budget < 2 ==> n == 2)
  }

  /** What N may cost: the operations budget decides when memory is ample, the
      memory budget otherwise. */
  function Budget(ops: int, mem: int): int {
    if ops < mem / 32 then ops / 32 else mem / 1024
  }

  /** The limits that the parameters keep: the operations and memory asked for, and
      r * p < 2^30 and p <= ((2^32 - 1) * 32) / (128 * r) of section 2 of RFC 7914. */
  predicate WithinLimits(n: int, r: int, p: int, ops: int, mem: int) {
    && p >= 1
    && 4 * n * r * p <= ops
    && (128 * n * r <= mem <==> mem >= 2048)
    && r * p <= 0x3fffffff
    && p * 128 * r <= 0xffff_ffff * 32
  }

  /** N is the largest power of two, from two on, that both limits allow with a single block
      of eight, and p the largest count of such blocks that the operations and
      r * p < 2^30 allow. */
  predicate Best(n: int, p: int, ops: int, mem: int) {
    && (n == 2 || (32 * n <= ops && 1024 * n <= mem))
    && (64 * n > ops || 2048 * n > mem)
    && (32 * n * (p + 1) > ops || 8 * (p + 1) > 0x3fffffff)
  }

  method ParamsFromLimits(opslimit: Uint64, memlimit: Uint64) returns (N: int, r: int, p: int, ok: bool)
    ensures ok && r == 8
    ensures Best(N, p, if opslimit < 32768 then 32768 else opslimit as int, memlimit as int)
    ensures exists ln: nat :: 1 <= ln < 63 && N == Pow2(ln)
    ensures var ops, mem := if opslimit as int < MIN_OPS then MIN_OPS else opslimit as int, memlimit as int;
            Chosen(N, Budget(ops, mem)) && WithinLimits(N, r, p, ops, mem)
  {
    var ops, mem := opslimit as int, memlimit as int;
    if ops < MIN_OPS {
      ops := MIN_OPS;
    }
    r := R;
    var ln: nat;
    if ops < mem / 32 {
      ln := Pick(ops / (r * 4));
      p := 1;
      OpsBudget(ops, mem, Pow2(ln));
      assert Best(Pow2(ln), p, ops, mem);
    } else {
      ln := Pick(mem / (r * 128));
      var maxrp := (ops / 4) / Pow2(ln);
      RoomForP(ops, mem, Pow2(ln));
      if maxrp > MAX_RP {
        maxrp := MAX_RP;
      }
      p := maxrp / r;
      MemBudget(ops, mem, Pow2(ln), maxrp, p);
      MemBest(ops, mem, Pow2(ln), maxrp, p);
    }
    N := Pow2(ln);
    ok := !(ln >= 63);
  }

  lemma OpsBudget(ops: int, mem: int, n: int)
    requires ops >= 32768 && ops < mem / 32 && Chosen(n, ops / 32)
    ensures WithinLimits(n, 8, 1, ops, mem)
  {
  }

  /** With the memory budget deciding, eight blocks of N still fit the operations. */
  lemma RoomForP(ops: int, mem: int, n: int)
    requires ops >= 32768 && mem >= 0 && ops >= mem / 32 && Chosen(n, mem / 1024)
    ensures (ops / 4) / n >= 8
  {
    assert 32 * n <= ops;
    DivAtLeast(ops / 4, n, 8);
  }

  lemma DivAtLeast(a: int, n: int, k: int)
    requires n > 0 && a >= k * n
    ensures a / n >= k
  {
    var q := a / n;
    assert a == q * n + a % n < (q + 1) * n;
    MulMonotone(q + 1, k, n);
  }

  lemma MulMonotone(x: int, y: int, n: int)
    requires n >= 0
    ensures x <= y ==> x * n <= y * n
  {
    if x <= y {
      assert (y - x) * n >= 0;
    }
  }

  lemma MemBudget(ops: int, mem: int, n: int, maxrp: int, p: int)
    requires ops >= 32768 && mem >= 0 && ops >= mem / 32 && Chosen(n, mem / 1024)
    requires 8 <= maxrp <= (ops / 4) / n && maxrp <= MAX_RP && p == maxrp / 8
    ensures WithinLimits(n, 8, p, ops, mem)
  {
    OpsFit(ops, n, maxrp, p);
    MemoryFits(mem, n);
  }

  lemma MemBest(ops: int, mem: int, n: int, maxrp: int, p: int)
    requires ops >= 32768 && mem >= 0 && ops >= mem / 32 && Chosen(n, mem / 1024)
    requires maxrp == (if (ops / 4) / n > 0x3fffffff then 0x3fffffff else (ops / 4) / n) && p == maxrp / 8
    ensures Best(n, p, ops, mem)
  {
    if maxrp == (ops / 4) / n {
      var q := (ops / 4) / n;
      assert ops / 4 < (q + 1) * n;
      MulMonotone(q + 1, 8 * (p + 1), n);
      Regroup(n, p + 1);
    }
  }

  lemma OpsFit(ops: int, n: int, maxrp: int, p: int)
    requires ops >= 0 && n > 0 && 8 <= maxrp <= (ops / 4) / n && p == maxrp / 8
    ensures 4 * n * 8 * p <= ops
  {
    var q := (ops / 4) / n;
    assert q * n <= ops / 4;
    MulMonotone(8 * p, q, n);
    Regroup(n, p);
  }

  lemma Regroup(n: int, p: int)
    ensures 4 * n * 8 * p == 4 * ((8 * p) * n)
  {
  }

  lemma MemoryFits(mem: int, n: int)
    requires mem >= 0 && Chosen(n, mem / 1024)
    ensures 128 * n * 8 <= mem <==> mem >= 2048
  {
  }

  /** The key-file masking: every byte of `b` that `a` reaches is mixed in. */
  function Xor(a: seq<bv8>, b: seq<bv8>): (out: seq<bv8>)
    requires |a| <= |b|
    ensures |out| == |a| && forall i :: 0 <= i < |a| ==> out[i] == a[i] ^ b[i]
  {
    seq(|a|, i requires 0 <= i < |a| => a[i] ^ b[i])
  }

  method XorInto(a: seq<bv8>, b: seq<bv8>) returns (out: seq<bv8>)
    requires |a| <= |b|
    ensures out == Xor(a, b)
  {
    out := [];
    for i := 0 to |a|
      invariant |out| == i && forall j :: 0 <= j < i ==> out[j] == a[j] ^ b[j]
    {
      out := out + [a[i] ^ b[i]];
    }
  }

  /** Masking twice with the same key stream restores the key. */
  lemma XorTwice(a: seq<bv8>, k: seq<bv8>)
    requires |a| <= |k|
    ensures Xor(Xor(a, k), k) == a
  {
    var m := Xor(a, k);
    forall i | 0 <= i < |a|
      ensures Xor(m, k)[i] == a[i]
    {
      XorByte(a[i], k[i]);
    }
  }

  lemma XorByte(x: bv8, y: bv8)
    ensures (x ^ y) ^ y == x
  {
  }
}
