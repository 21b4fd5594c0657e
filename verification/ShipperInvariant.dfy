/** What every operation of the shipper keeps, one process life at a time. */
module LogshipInvariant {
  import opened Basics
  import opened LineSplit
  import opened Logship

  lemma BootWellformed(c: Config, state: Persisted, size: nat)
    ensures Wellformed(c, Boot(c, state, size))
  {
    var none: seq<Line> := [];
    SubsequenceRefl(none);
    assert none + none == none;
  }

  /** Moving elements between the parts of a partition keeps the whole. */
  lemma PartitionShift<T>(d: multiset<T>, q: multiset<T>, x: multiset<T>, l: multiset<T>,
                          gone: multiset<T>, rest: multiset<T>)
    requires q + l == gone + rest
    ensures d + rest + (x + gone) == d + q + x + l
  {
    assert d + rest + (x + gone) == d + x + (gone + rest);
  }

  lemma MultisetsOf<T>(a: seq<T>, b: seq<T>)
    ensures multiset(a + b) == multiset(a) + multiset(b)
  {
  }

  lemma LatestShift(good: seq<Line>, q: seq<Line>, l: Line, gone: seq<Line>, rest: seq<Line>)
    requires Latest(q, good) && q + [l] == gone + rest
    ensures Latest(rest, good + [l])
  {
    var g := good + [l];
    assert g[|g| - |q| - 1..] == q + [l];
    assert g[|g| - |rest|..] == g[|g| - |q| - 1..][|gone|..];
  }

  lemma SettledEnqueue(good: seq<Line>, d: seq<Line>, q: seq<Line>, dropped: seq<Line>, l: Line,
                       gone: seq<Line>, rest: seq<Line>)
    requires Settled(good, d, q, dropped)
    requires q + [l] == gone + rest
    ensures Settled(good + [l], d, rest, dropped + gone)
  {
    assert multiset(d) + multiset(rest) + multiset(dropped + gone) == multiset(good + [l]) by {
      MultisetsOf(q, [l]);
      MultisetsOf(gone, rest);
      MultisetsOf(good, [l]);
      MultisetsOf(dropped, gone);
      PartitionShift(multiset(d), multiset(q), multiset(dropped), multiset([l]), multiset(gone), multiset(rest));
    }
    assert Subsequence(d + rest, good + [l]) by {
      SubsequenceBoth(d + q, good, [l]);
      assert d + q + [l] == d + (q + [l]) == d + gone + rest;
      SubsequenceDrop(d, gone, rest, good + [l]);
    }
    LatestShift(good, q, l, gone, rest);
    if dropped + gone == [] {
      assert rest == q + [l];
      assert d + rest == d + q + [l];
    }
  }

  lemma SettledShip(good: seq<Line>, d: seq<Line>, q: seq<Line>, dropped: seq<Line>, n: nat)
    requires Settled(good, d, q, dropped) && n <= |q|
    ensures d + q[..n] + q[n..] == d + q
    ensures Settled(good, d + q[..n], q[n..], dropped)
  {
    assert q == q[..n] + q[n..];
    assert d + q[..n] + q[n..] == d + q;
    assert good[|good| - |q[n..]|..] == good[|good| - |q|..][n..];
  }

  lemma EnqueuedAccounted(c: Config, t: Track, l: Line)
    requires c.Valid() && Accounted(c, t)
    ensures Accounted(c, Enqueued(c, t, l))
  {
    hide Filter, Settled;
    var h, q := t.led.handed, t.mem.queue;
    FilterLast(c.parse, h, l);
    if c.parse(l) {
      var over := Excess(|q + [l]|, c.maxPending);
      var gone, rest := (q + [l])[..over], (q + [l])[over..];
      SettledEnqueue(Filter(c.parse, h), t.led.delivered, q, t.led.dropped, l, gone, rest);
    }
  }

  lemma {:induction false} EnqueuedAllAccounted(c: Config, t: Track, ls: seq<Line>)
    requires c.Valid() && Accounted(c, t)
    ensures Accounted(c, EnqueuedAll(c, t, ls))
  {
    if ls != [] {
      EnqueuedAllAccounted(c, t, ls[..|ls| - 1]);
      EnqueuedAccounted(c, EnqueuedAll(c, t, ls[..|ls| - 1]), ls[|ls| - 1]);
    }
  }

  /** A read before its lines are handed on. */
  ghost function Taken(t: Track, chunk: Bytes): Track {
    Track(t.mem.(offset := t.mem.offset + |chunk|, partial := Tail(t.mem.partial + chunk)),
          t.led.(kept := t.led.kept + chunk))
  }

  lemma AbsorbedTaken(c: Config, t: Track, chunk: Bytes)
    requires !Oversize(t, chunk)
    ensures Absorbed(c, t, chunk) == EnqueuedAll(c, Taken(t, chunk), NonEmpty(Lines(t.mem.partial + chunk)))
  {
  }

  /** One read, of any size, at any point of a line. */
  lemma AbsorbedWellformed(c: Config, t: Track, chunk: Bytes)
    requires c.Valid() && Wellformed(c, t)
    ensures Wellformed(c, Absorbed(c, t, chunk))
  {
    var kept, p := t.led.kept, t.mem.partial + chunk;
    if Oversize(t, chunk) {
      SplitNewlineFree(kept);
      SplitUnique(Lines(kept), []);
      assert Join(Lines(kept)) + [] == Join(Lines(kept));
    } else {
      AbsorbedTaken(c, t, chunk);
      EnqueuedAllAccounted(c, Taken(t, chunk), NonEmpty(Lines(p)));
      EnqueuedAllFrame(c, Taken(t, chunk), NonEmpty(Lines(p)));
      ReassembledAppend(kept, chunk);
      TailShrinks(p);
    }
  }

  lemma ReassembledAppend(kept: Bytes, chunk: Bytes)
    ensures NonEmpty(Lines(kept + chunk)) == NonEmpty(Lines(kept)) + NonEmpty(Lines(Tail(kept) + chunk))
    ensures Tail(kept + chunk) == Tail(Tail(kept) + chunk)
  {
    SplitAppend(kept, chunk);
    FilterAppend(HasText, Lines(kept), Lines(Tail(kept) + chunk));
  }

  lemma {:induction false} TailShrinks(s: Bytes)
    ensures |Tail(s)| <= |s|
  {
    if s != [] { TailShrinks(s[..|s| - 1]); }
  }

  /** In a wellformed shipper the whole head of the queue is the batch. */
  lemma BatchIsHead(c: Config, t: Track)
    requires All(c.parse, t.mem.queue)
    ensures Batch(c, t) == t.mem.queue[..Min(c.batchSize, |t.mem.queue|)]
  {
    FilterAll(c.parse, t.mem.queue[..Min(c.batchSize, |t.mem.queue|)]);
  }

  /** A flush of a wellformed shipper, spelled out: nothing, a delivery of the n oldest
      lines, or a refusal that only counts. */
  lemma FlushCases(c: Config, t: Track, w: World, o: Outcome) returns (t': Track, n: nat)
    requires c.Valid() && Accounted(c, t)
    ensures t' == Flushed(c, t, w, o).0 && n <= |t.mem.queue|
    ensures t'.mem == t.mem.(queue := t.mem.queue[n..], pushed := t.mem.pushed + n, failed := t'.mem.failed)
    ensures t'.led == t.led.(delivered := t.led.delivered + t.mem.queue[..n])
    ensures n > 0 <==> t.mem.queue != [] && Accepted(c, o)
    ensures Flushed(c, t, w, o).1.state == if n > 0 && o.stateOk then At(t.mem.offset) else w.state
  {
    t' := Flushed(c, t, w, o).0;
    BatchIsHead(c, t);
    var q := t.mem.queue;
    n := if q != [] && Accepted(c, o) then Min(c.batchSize, |q|) else 0;
    assert q[..0] == [] && q[0..] == q && q[..|q|] == q;
    assert t.led.delivered + [] == t.led.delivered;
  }

  /** Delivery and refusal. */
  lemma FlushedWellformed(c: Config, t: Track, w: World, o: Outcome)
    requires c.Valid() && Wellformed(c, t)
    ensures Wellformed(c, Flushed(c, t, w, o).0)
  {
    var t', n := FlushCases(c, t, w, o);
    SettledShip(Filter(c.parse, t.led.handed), t.led.delivered, t.mem.queue, t.led.dropped, n);
  }

  /** What a flush does to a wellformed shipper, outcome by outcome. */
  lemma FlushEffect(c: Config, t: Track, w: World, o: Outcome)
    requires c.Valid() && Wellformed(c, t)
    ensures var (t', w') := Flushed(c, t, w, o);
            && t'.mem.offset == t.mem.offset && t'.mem.partial == t.mem.partial
            && t'.led == t.led.(delivered := t'.led.delivered)
            && t'.led.delivered + t'.mem.queue == t.led.delivered + t.mem.queue
            && (!Accepted(c, o) ==> t'.mem.queue == t.mem.queue && w'.state == w.state)
            && (w'.state != w.state ==>
                  Accepted(c, o) && w'.state == At(t.mem.offset) && |t'.mem.queue| < |t.mem.queue|)
    ensures var (t', w') := Flushed(c, t, w, o);
            var n := if |t.mem.queue| < c.batchSize then |t.mem.queue| else c.batchSize;
            var accepted := (c.lokiOn ==> o.lokiOk) && (c.uplinkOn ==> o.uplinkOk);
            && t'.mem.queue == (if accepted then t.mem.queue[n..] else t.mem.queue)
            && t'.led.delivered == (if accepted then t.led.delivered + t.mem.queue[..n] else t.led.delivered)
            && w'.loki == (if c.lokiOn && o.lokiOk then w.loki + t.mem.queue[..n] else w.loki)
            && w'.uplink == (if c.uplinkOn && o.uplinkOk then w.uplink + t.mem.queue[..n] else w.uplink)
            && t'.mem.failed == t.mem.failed + (if t.mem.queue != [] && !accepted then 1 else 0)
            && t'.mem.pushed == t.mem.pushed + (if accepted then n else 0)
            && t'.mem.skipped == t.mem.skipped
            && w'.state == (if n > 0 && accepted && o.stateOk then At(t.mem.offset) else w.state)
  {
    hide Flushed, Settled, Reassembled, Filter, All;
    FlushTrack(c, t, w, o);
    FlushWorld(c, t, w, o);
    FlushKeeps(c, t, w, o);
  }

  lemma FlushTrack(c: Config, t: Track, w: World, o: Outcome)
    requires c.Valid() && All(c.parse, t.mem.queue) && |t.mem.queue| <= c.maxPending
    ensures var t' := Flushed(c, t, w, o).0;
            var n := if |t.mem.queue| < c.batchSize then |t.mem.queue| else c.batchSize;
            var accepted := (c.lokiOn ==> o.lokiOk) && (c.uplinkOn ==> o.uplinkOk);
            && t'.mem.queue == (if accepted then t.mem.queue[n..] else t.mem.queue)
            && t'.led.delivered == (if accepted then t.led.delivered + t.mem.queue[..n] else t.led.delivered)
            && t'.mem.failed == t.mem.failed + (if t.mem.queue != [] && !accepted then 1 else 0)
            && t'.mem.pushed == t.mem.pushed + (if accepted then n else 0)
            && t'.mem.skipped == t.mem.skipped
  {
    BatchIsHead(c, t);
    hide Batch, SinksAfter;
    var q := t.mem.queue;
    assert q[0..] == q && q[..0] == [] && q[..|q|] == q;
    assert t.led.delivered + [] == t.led.delivered;
  }

  lemma FlushWorld(c: Config, t: Track, w: World, o: Outcome)
    requires c.Valid() && All(c.parse, t.mem.queue)
    ensures var w' := Flushed(c, t, w, o).1;
            var n := if |t.mem.queue| < c.batchSize then |t.mem.queue| else c.batchSize;
            var accepted := (c.lokiOn ==> o.lokiOk) && (c.uplinkOn ==> o.uplinkOk);
            && w'.loki == (if c.lokiOn && o.lokiOk then w.loki + t.mem.queue[..n] else w.loki)
            && w'.uplink == (if c.uplinkOn && o.uplinkOk then w.uplink + t.mem.queue[..n] else w.uplink)
            && w'.state == (if n > 0 && accepted && o.stateOk then At(t.mem.offset) else w.state)
  {
    BatchIsHead(c, t);
    hide Batch;
    assert t.mem.queue == [] ==> t.mem.queue[..0] == [];
    assert w.loki + [] == w.loki && w.uplink + [] == w.uplink;
  }

  lemma FlushKeeps(c: Config, t: Track, w: World, o: Outcome)
    requires c.Valid() && Wellformed(c, t)
    ensures var (t', w') := Flushed(c, t, w, o);
            && t'.mem.offset == t.mem.offset && t'.mem.partial == t.mem.partial
            && t'.led == t.led.(delivered := t'.led.delivered)
            && t'.led.delivered + t'.mem.queue == t.led.delivered + t.mem.queue
            && (!Accepted(c, o) ==> t'.mem.queue == t.mem.queue && w'.state == w.state)
            && (w'.state != w.state ==>
                  Accepted(c, o) && w'.state == At(t.mem.offset) && |t'.mem.queue| < |t.mem.queue|)
  {
    var t', n := FlushCases(c, t, w, o);
    SettledShip(Filter(c.parse, t.led.handed), t.led.delivered, t.mem.queue, t.led.dropped, n);
    assert n == 0 ==> t.mem.queue[n..] == t.mem.queue;
  }

  /** Counters balance: nothing read is unaccounted for. */
  lemma Conservation(c: Config, t: Track)
    requires Wellformed(c, t)
    ensures t.mem.pushed + |t.mem.queue| + t.mem.skipped == |NonEmpty(Lines(t.led.kept))| + t.led.oversize
  {
    var led := t.led;
    var all := multiset(led.delivered) + multiset(t.mem.queue) + multiset(led.dropped);
    assert |all| == |led.delivered| + |t.mem.queue| + |led.dropped|;
    assert |multiset(Filter(c.parse, led.handed))| == |Filter(c.parse, led.handed)|;
  }

  /** What is consumed of the file is what is kept; each drop for size costs at least one
      byte of a line. */
  ghost predicate ReadsFile(t: Track, file: Bytes) {
    && t.led.base <= t.mem.offset <= |file|
    && (t.led.oversize == 0 ==> t.led.kept == file[t.led.base..t.mem.offset])
    && Plain(t.led.kept) + t.led.oversize <= Plain(file[t.led.base..t.mem.offset])
  }

  lemma AbsorbedLedger(c: Config, t: Track, chunk: Bytes)
    ensures Absorbed(c, t, chunk).led.oversize == t.led.oversize + (if Oversize(t, chunk) then 1 else 0)
    ensures Absorbed(c, t, chunk).led.kept == if Oversize(t, chunk) then Join(Lines(t.led.kept)) else t.led.kept + chunk
    ensures Absorbed(c, t, chunk).mem.offset == t.mem.offset + |chunk|
    ensures Absorbed(c, t, chunk).led.base == t.led.base && Absorbed(c, t, chunk).led.delivered == t.led.delivered
    ensures Oversize(t, chunk) ==> Absorbed(c, t, chunk).led.handed == t.led.handed
  {
    if !Oversize(t, chunk) {
      AbsorbedTaken(c, t, chunk);
      EnqueuedAllFrame(c, Taken(t, chunk), NonEmpty(Lines(t.mem.partial + chunk)));
    }
  }

  lemma AbsorbedPlain(c: Config, t: Track, chunk: Bytes)
    requires Reassembled(t) && |chunk| <= BUF_SIZE
    ensures var led := Absorbed(c, t, chunk).led;
            Plain(led.kept) + led.oversize <= Plain(t.led.kept) + t.led.oversize + Plain(chunk)
  {
    hide Absorbed;
    AbsorbedLedger(c, t, chunk);
    PlainAppend(t.led.kept, chunk);
    PlainWithoutTail(t.led.kept);
  }

  lemma AbsorbedReads(c: Config, t: Track, file: Bytes, n: nat)
    requires c.Valid() && Reassembled(t) && ReadsFile(t, file)
    requires n <= BUF_SIZE && t.mem.offset + n <= |file|
    ensures var t' := Absorbed(c, t, file[t.mem.offset..t.mem.offset + n]);
            && ReadsFile(t', file) && t'.led.base == t.led.base && t'.mem.offset == t.mem.offset + n
            && t'.led.delivered == t.led.delivered
  {
    var chunk := file[t.mem.offset..t.mem.offset + n];
    hide *;
    AbsorbedPlain(c, t, chunk);
    AbsorbedLedger(c, t, chunk);
    ReadsOn(t, Absorbed(c, t, chunk), file, chunk);
  }

  lemma ReadsOn(t: Track, t': Track, file: Bytes, chunk: Bytes)
    requires ReadsFile(t, file) && t.mem.offset + |chunk| <= |file|
    requires chunk == file[t.mem.offset..t.mem.offset + |chunk|]
    requires t'.led.base == t.led.base && t'.mem.offset == t.mem.offset + |chunk|
    requires t'.led.oversize == 0 ==> t.led.oversize == 0 && t'.led.kept == t.led.kept + chunk
    requires Plain(t'.led.kept) + t'.led.oversize <= Plain(t.led.kept) + t.led.oversize + Plain(chunk)
    ensures ReadsFile(t', file)
  {
    hide Plain;
    assert file[t.led.base..t.mem.offset] + chunk == file[t.led.base..t.mem.offset + |chunk|];
    PlainAppend(file[t.led.base..t.mem.offset], chunk);
  }

  /** THE SIZE LIMIT, EXACTLY. The lines handed on and the bytes held back are those of
      the consumed part of the file if and only if no read was dropped for its size. */
  lemma SplitExactly(c: Config, t: Track, file: Bytes)
    requires Wellformed(c, t) && ReadsFile(t, file)
    ensures var seen := file[t.led.base..t.mem.offset];
            (t.led.handed == NonEmpty(Lines(seen)) && t.mem.partial == Tail(seen)) <==> t.led.oversize == 0
  {
    PlainSplit(t.led.kept);
    PlainSplit(file[t.led.base..t.mem.offset]);
  }

  /** No line of the stream, finished or not, is longer than `limit`. */
  ghost predicate LinesWithin(s: Bytes, limit: nat) {
    (forall k :: 0 <= k < |Lines(s)| ==> |Lines(s)[k]| <= limit) && |Tail(s)| <= limit
  }

  /** Cutting a stream anywhere leaves a tail no longer than its longest line. */
  lemma TailOfPrefix(a: Bytes, b: Bytes, limit: nat)
    requires LinesWithin(a + b, limit)
    ensures |Tail(a)| <= limit
  {
    SplitAppend(a, b);
    SplitNewlineFree(a);
    var p := Tail(a) + b;
    TailOfStart(Tail(a), b);
    if Lines(p) != [] {
      assert Lines(a + b)[|Lines(a)|] == Lines(p)[0];
    }
  }

  lemma {:induction false} TailOfStart(t: Bytes, b: Bytes)
    requires NEWLINE !in t
    ensures Lines(t + b) == [] ==> |Tail(t + b)| >= |t|
    ensures Lines(t + b) != [] ==> |Lines(t + b)[0]| >= |t|
  {
    if b == [] {
      assert t + b == t;
      SplitPlain(t);
    } else {
      TailOfStart(t, b[..|b| - 1]);
      assert (t + b)[..|t + b| - 1] == t + b[..|b| - 1];
    }
  }

  /** A shipper that has read `file` from `base` on without a size drop. */
  ghost predicate Faithful(c: Config, t: Track, file: Bytes, base: nat) {
    Wellformed(c, t) && ReadsFile(t, file) && t.led.oversize == 0 && t.led.base == base
  }

  lemma ShortLinesFit(c: Config, t: Track, file: Bytes, base: nat, n: nat)
    requires Faithful(c, t, file, base) && n <= BUF_SIZE && t.mem.offset + n <= |file|
    requires LinesWithin(file[base..], MAX_LINE - BUF_SIZE)
    ensures !Oversize(t, file[t.mem.offset..t.mem.offset + n])
  {
    hide Accounted;
    var off := t.mem.offset;
    assert file[base..off] + file[off..] == file[base..];
    TailOfPrefix(file[base..off], file[off..], MAX_LINE - BUF_SIZE);
  }

  lemma ReassemblyStep(c: Config, t: Track, file: Bytes, base: nat, n: nat) returns (t': Track)
    requires c.Valid() && Faithful(c, t, file, base)
    requires n <= BUF_SIZE && t.mem.offset + n <= |file|
    requires LinesWithin(file[base..], MAX_LINE - BUF_SIZE)
    ensures t' == Absorbed(c, t, file[t.mem.offset..t.mem.offset + n])
    ensures Faithful(c, t', file, base) && t'.mem.offset == t.mem.offset + n
  {
    var chunk := file[t.mem.offset..t.mem.offset + n];
    t' := Absorbed(c, t, chunk);
    ShortLinesFit(c, t, file, base, n);
    AbsorbedWellformed(c, t, chunk);
    AbsorbedReads(c, t, file, n);
    AbsorbedLedger(c, t, chunk);
  }

  lemma {:induction false} ReassemblyRun(c: Config, t: Track, file: Bytes, base: nat, cuts: seq<nat>)
    requires c.Valid() && Faithful(c, t, file, base)
    requires LegalReads(|file| - t.mem.offset, cuts)
    requires LinesWithin(file[base..], MAX_LINE - BUF_SIZE)
    ensures Faithful(c, AbsorbedAll(c, t, file, cuts), file, base)
    decreases |cuts|
  {
    if cuts == [] {
    } else if cuts[0] == 0 {
      ReassemblyRun(c, t, file, base, cuts[1..]);
    } else {
      var t' := ReassemblyCons(c, t, file, base, cuts);
      ReassemblyRun(c, t', file, base, cuts[1..]);
    }
  }

  lemma ReassemblyCons(c: Config, t: Track, file: Bytes, base: nat, cuts: seq<nat>) returns (t': Track)
    requires c.Valid() && Faithful(c, t, file, base)
    requires LegalReads(|file| - t.mem.offset, cuts) && cuts != [] && cuts[0] > 0
    requires LinesWithin(file[base..], MAX_LINE - BUF_SIZE)
    ensures Faithful(c, t', file, base) && LegalReads(|file| - t'.mem.offset, cuts[1..])
    ensures AbsorbedAll(c, t, file, cuts) == AbsorbedAll(c, t', file, cuts[1..])
  {
    hide Accounted, Absorbed;
    var t1 := AbsorbedAllStep(c, t, file, cuts);
    t' := ReassemblyStep(c, t, file, base, cuts[0]);
  }

  /** REASSEMBLY. However the file's growth is cut into reads, the lines handed to
      the queue are the non-empty lines of the consumed part and the held-back
      bytes its unterminated tail, as long as no line outgrows what the size
      limit leaves beside one read buffer. */
  lemma Reassembly(c: Config, t: Track, file: Bytes, base: nat, cuts: seq<nat>)
    requires c.Valid() && Faithful(c, t, file, base)
    requires LegalReads(|file| - t.mem.offset, cuts)
    requires LinesWithin(file[base..], 1048576 - 262144)
    ensures var t' := AbsorbedAll(c, t, file, cuts);
            && base <= t'.mem.offset <= |file|
            && t'.led.handed == NonEmpty(Lines(file[base..t'.mem.offset]))
            && t'.mem.partial == Tail(file[base..t'.mem.offset])
  {
    ReassemblyRun(c, t, file, base, cuts);
  }

  /** The size guard is exact: one read keeps the reassembly of the consumed bytes
      if and only if it does not push the held-back bytes over the limit. */
  lemma ReassemblyExactlyUnlessOversize(c: Config, t: Track, chunk: Bytes)
    requires c.Valid() && Wellformed(c, t) && |chunk| <= BUF_SIZE
    ensures var t' := Absorbed(c, t, chunk);
            var seen := t.led.kept + chunk;
            (t'.led.handed == NonEmpty(Lines(seen)) && t'.mem.partial == Tail(seen))
            <==> |t.mem.partial| + |chunk| <= 1048576
  {
    AbsorbedWellformed(c, t, chunk);
    AbsorbedLedger(c, t, chunk);
    if Oversize(t, chunk) {
      var ls := Lines(t.mem.partial + chunk);
      ReassembledAppend(t.led.kept, chunk);
      SplitNewlineFree(t.led.kept);
      TailOfStart(t.mem.partial, chunk);
      if ls != [] {
        FirstKept(ls);
      }
    }
  }

  lemma FirstKept(ls: seq<Line>)
    requires ls != [] && ls[0] != []
    ensures NonEmpty(ls) != []
  {
    assert ls == [ls[0]] + ls[1..];
    FilterAppend(HasText, [ls[0]], ls[1..]);
    assert [ls[0]][..0] == [];
  }
}
