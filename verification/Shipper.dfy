/** The log shipper: a tail over an append-only file, a capped queue, two sinks.

`Track` pairs the shipper's fields with a ledger of everything that ever
happened to the lines of this process's life. The functions on `Track` say
what each operation does; the class `Shipper` does it step by step.
`Wellformed` is what every operation keeps.
*/
module Logship {
  import opened Basics
  import opened LineSplit

  /** `readNew` reads at most this many bytes at once. */
  const BUF_SIZE: nat := 262144
  /** An unterminated line beyond this size is dropped. */
  const MAX_LINE: nat := 1048576

  /** `parse` is `ParseLine`'s verdict: is the line a well-formed log event? */
  datatype Config = Config(
    parse: Line -> bool,
    batchSize: nat,
    maxPending: nat,
    lokiOn: bool,
    uplinkOn: bool,
    startAtEnd: bool)
  {
    predicate Valid() {
      batchSize > 0 && maxPending > 0
    }

    /** The defaulting of non-positive sizes. */
    function WithDefaults(batch: int, pending: int): (c: Config)
      ensures c.Valid()
    {
      this.(batchSize := if batch <= 0 then 200 else batch,
            maxPending := if pending <= 0 then 4096 else pending)
    }
  }

  /** The `.shipoffset` file. */
  datatype Persisted = Absent | Garbled | At(offset: int)

  datatype Mem = Mem(
    offset: nat,
    partial: Bytes,
    queue: seq<Line>,
    pushed: nat,
    failed: nat,
    skipped: nat)

  /** What became of the bytes read since `base`.
      `kept` is the stream with oversize drops cut out; `handed` the lines given
      to `enqueue`; `delivered` those accepted by every enabled sink;
      `dropped` those pushed out of the queue by the cap. */
  datatype Ledger = Ledger(
    base: nat,
    kept: Bytes,
    handed: seq<Line>,
    delivered: seq<Line>,
    dropped: seq<Line>,
    oversize: nat)

  datatype Track = Track(mem: Mem, led: Ledger)

  /** The parseable lines of a stream: what ought to be shipped of it. */
  ghost function Good(c: Config, s: Bytes): seq<Line> {
    Filter(c.parse, NonEmpty(Lines(s)))
  }

  ghost function Excess(n: nat, cap: nat): nat {
    if n > cap then n - cap else 0
  }

  function BootOffset(c: Config, state: Persisted, size: nat): (off: nat)
    ensures off <= size
  {
    match state
    case At(off) => if off < 0 || off > size then 0 else off
    case Garbled => 0
    case Absent => if c.startAtEnd then size else 0
  }

  ghost function Boot(c: Config, state: Persisted, size: nat): Track {
    var off := BootOffset(c, state, size);
    Track(Mem(off, [], [], 0, 0, 0), Ledger(off, [], [], [], [], 0))
  }

  ghost function Enqueued(c: Config, t: Track, l: Line): Track {
    var led := t.led.(handed := t.led.handed + [l]);
    if !c.parse(l) then
      Track(t.mem.(skipped := t.mem.skipped + 1), led)
    else
      var q := t.mem.queue + [l];
      var over := Excess(|q|, c.maxPending);
      Track(t.mem.(queue := q[over..], skipped := t.mem.skipped + over),
            led.(dropped := led.dropped + q[..over]))
  }

  ghost function EnqueuedAll(c: Config, t: Track, ls: seq<Line>): Track {
    if ls == [] then t
    else Enqueued(c, EnqueuedAll(c, t, ls[..|ls| - 1]), ls[|ls| - 1])
  }

  ghost predicate Oversize(t: Track, chunk: Bytes) {
    |t.mem.partial| + |chunk| > MAX_LINE
  }

  /** One non-empty `ReadAt` result taken in. */
  ghost function Absorbed(c: Config, t: Track, chunk: Bytes): Track {
    var offset := t.mem.offset + |chunk|;
    var p := t.mem.partial + chunk;
    if Oversize(t, chunk) then
      Track(t.mem.(offset := offset, partial := [], skipped := t.mem.skipped + 1),
            t.led.(kept := Join(Lines(t.led.kept)), oversize := t.led.oversize + 1))
    else
      var t' := Track(t.mem.(offset := offset, partial := Tail(p)), t.led.(kept := t.led.kept + chunk));
      EnqueuedAll(c, t', NonEmpty(Lines(p)))
  }

  /** The byte counts of consecutive `ReadAt` calls on what is left of a file. */
  ghost predicate LegalReads(avail: int, cuts: seq<nat>)
    decreases |cuts|
  {
    avail >= 0 && (cuts == [] || (cuts[0] <= BUF_SIZE && cuts[0] <= avail && LegalReads(avail - cuts[0], cuts[1..])))
  }

  ghost function AbsorbedAll(c: Config, t: Track, file: Bytes, cuts: seq<nat>): Track
    requires LegalReads(|file| - t.mem.offset, cuts)
    decreases |cuts|
  {
    if cuts == [] then t
    else if cuts[0] == 0 then AbsorbedAll(c, t, file, cuts[1..])
    else
      var t' := Absorbed(c, t, file[t.mem.offset..t.mem.offset + cuts[0]]);
      AbsorbedOffset(c, t, file[t.mem.offset..t.mem.offset + cuts[0]]);
      AbsorbedAll(c, t', file, cuts[1..])
  }

  lemma {:induction false} EnqueuedAllFrame(c: Config, t: Track, ls: seq<Line>)
    ensures var t' := EnqueuedAll(c, t, ls);
            && t'.mem.offset == t.mem.offset && t'.mem.partial == t.mem.partial
            && t'.mem.pushed == t.mem.pushed && t'.mem.failed == t.mem.failed
            && t'.led.base == t.led.base && t'.led.kept == t.led.kept
            && t'.led.oversize == t.led.oversize && t'.led.delivered == t.led.delivered
            && t'.led.handed == t.led.handed + ls
  {
    if ls != [] {
      EnqueuedAllFrame(c, t, ls[..|ls| - 1]);
      assert ls[..|ls| - 1] + [ls[|ls| - 1]] == ls;
    }
  }

  lemma AbsorbedOffset(c: Config, t: Track, chunk: Bytes)
    ensures Absorbed(c, t, chunk).mem.offset == t.mem.offset + |chunk|
  {
    if !Oversize(t, chunk) {
      var p := t.mem.partial + chunk;
      var t' := Track(t.mem.(offset := t.mem.offset + |chunk|, partial := Tail(p)), t.led.(kept := t.led.kept + chunk));
      EnqueuedAllFrame(c, t', NonEmpty(Lines(p)));
    }
  }

  /** The first of several reads. */
  lemma {:induction false} AbsorbedAllStep(c: Config, t: Track, file: Bytes, cuts: seq<nat>) returns (t': Track)
    requires LegalReads(|file| - t.mem.offset, cuts) && cuts != []
    ensures cuts[0] <= |file| - t.mem.offset
    ensures t' == if cuts[0] == 0 then t else Absorbed(c, t, file[t.mem.offset..t.mem.offset + cuts[0]])
    ensures LegalReads(|file| - t'.mem.offset, cuts[1..])
    ensures AbsorbedAll(c, t, file, cuts) == AbsorbedAll(c, t', file, cuts[1..])
  {
    hide Absorbed;
    t' := if cuts[0] == 0 then t else Absorbed(c, t, file[t.mem.offset..t.mem.offset + cuts[0]]);
    AbsorbedOffset(c, t, file[t.mem.offset..t.mem.offset + cuts[0]]);
  }

  /** The sinks' accepted lines and the offset file: what outlives the process. */
  datatype World = World(state: Persisted, loki: seq<Line>, uplink: seq<Line>)

  /** What the sinks and the disk answer during one flush. */
  datatype Outcome = Outcome(lokiOk: bool, uplinkOk: bool, stateOk: bool)

  ghost predicate Accepted(c: Config, o: Outcome) {
    (c.lokiOn ==> o.lokiOk) && (c.uplinkOn ==> o.uplinkOk)
  }

  ghost function Batch(c: Config, t: Track): seq<Line> {
    Filter(c.parse, t.mem.queue[..Min(c.batchSize, |t.mem.queue|)])
  }

  /** The sinks after a flush attempt; each may accept on its own. */
  ghost function SinksAfter(c: Config, t: Track, w: World, o: Outcome): World {
    w.(loki := if c.lokiOn && o.lokiOk then w.loki + Batch(c, t) else w.loki,
       uplink := if c.uplinkOn && o.uplinkOk then w.uplink + Batch(c, t) else w.uplink)
  }

  ghost function Flushed(c: Config, t: Track, w: World, o: Outcome): (Track, World) {
    var q := t.mem.queue;
    var n := Min(c.batchSize, |q|);
    var rest := q[n..];
    if q == [] then (t, w)
    else if Batch(c, t) == [] then (t.(mem := t.mem.(queue := rest)), w)
    else if Accepted(c, o) then
      (Track(t.mem.(queue := rest, pushed := t.mem.pushed + |Batch(c, t)|),
             t.led.(delivered := t.led.delivered + Batch(c, t))),
       var w' := SinksAfter(c, t, w, o);
       if o.stateOk then w'.(state := At(t.mem.offset)) else w')
    else
      var over := Excess(|q|, c.maxPending);
      (Track(t.mem.(queue := q[..|q| - over], failed := t.mem.failed + 1, skipped := t.mem.skipped + over), t.led),
       SinksAfter(c, t, w, o))
  }

  /** The lines handed on and the bytes held back are those of the kept stream. */
  ghost predicate Reassembled(t: Track) {
    && t.led.handed == NonEmpty(Lines(t.led.kept))
    && t.mem.partial == Tail(t.led.kept)
    && |t.mem.partial| <= MAX_LINE
  }

  ghost predicate Latest(queue: seq<Line>, good: seq<Line>) {
    |queue| <= |good| && good[|good| - |queue|..] == queue
  }

  /** The good lines so far are delivered, queued or dropped by the cap; delivery
      followed by the queue keeps their order, and the queue is the latest of them. */
  ghost predicate Settled(good: seq<Line>, delivered: seq<Line>, queue: seq<Line>, dropped: seq<Line>) {
    && Subsequence(delivered + queue, good)
    && Latest(queue, good)
    && (dropped == [] ==> delivered + queue == good)
    && multiset(delivered) + multiset(queue) + multiset(dropped) == multiset(good)
  }

  /** The queue is capped and parseable, and the counters are right. */
  ghost predicate Accounted(c: Config, t: Track) {
    var m, led, good := t.mem, t.led, Filter(c.parse, t.led.handed);
    && |m.queue| <= c.maxPending
    && All(c.parse, m.queue)
    && m.pushed == |led.delivered|
    && m.skipped == |led.handed| - |good| + |led.dropped| + led.oversize
    && Settled(good, led.delivered, m.queue, led.dropped)
  }

  /** The invariant of one process's life, whatever it reads and flushes. */
  ghost predicate Wellformed(c: Config, t: Track) {
    Reassembled(t) && Accounted(c, t)
  }

  /** The file stands outside the process; the class below writes to it only by `WriteState`. */
  class Outside {
    var state: Persisted
    var loki: seq<Line>
    var uplink: seq<Line>

    constructor (state: Persisted)
      ensures View() == World(state, [], [])
    {
      this.state, loki, uplink := state, [], [];
    }

    ghost function View(): World
      reads this
    {
      World(state, loki, uplink)
    }

    /** Temp file and rename: all or nothing. */
    method WriteState(off: nat, ok: bool)
      modifies this
      ensures View() == if ok then old(View()).(state := At(off)) else old(View())
    {
      if ok {
        state := At(off);
      }
    }
  }

  class Shipper {
    const cfg: Config
    var queue: seq<Line>
    var partial: Bytes
    var offset: nat
    var pushed: nat
    var failed: nat
    var skipped: nat
    ghost var led: Ledger

    ghost function View(): Track
      reads this
    {
      Track(Mem(offset, partial, queue, pushed, failed, skipped), led)
    }

    /** `batch` and `pending` are the sizes as configured. */
    constructor (options: Config, batch: int, pending: int, state: Persisted, size: nat)
      ensures cfg == options.(batchSize := cfg.batchSize, maxPending := cfg.maxPending)
      ensures cfg.batchSize == (if batch > 0 then batch else 200)
      ensures cfg.maxPending == (if pending > 0 then pending else 4096)
      ensures View() == Boot(cfg, state, size)
      ensures state.Absent? ==> offset == if options.startAtEnd then size else 0
      ensures state.Garbled? ==> offset == 0
      ensures state.At? && 0 <= state.offset <= size ==> offset == state.offset
      ensures state.At? && !(0 <= state.offset <= size) ==> offset == 0
      ensures queue == [] && partial == [] && pushed == failed == skipped == 0
    {
      cfg := options.WithDefaults(batch, pending);
      offset := BootOffset(options, state, size);
      queue, partial := [], [];
      pushed, failed, skipped := 0, 0, 0;
      led := Boot(options, state, size).led;
    }

    method Enqueue(line: Line)
      requires |queue| <= cfg.maxPending
      modifies this
      ensures View() == Enqueued(cfg, old(View()), line)
      ensures |queue| <= cfg.maxPending
    {
      led := led.(handed := led.handed + [line]);
      if !cfg.parse(line) {
        skipped := skipped + 1;
        return;
      }
      queue := queue + [line];
      led := led.(dropped := led.dropped + queue[..Excess(|queue|, cfg.maxPending)]);
      TrimOldest();
    }

    method TrimOldest()
      modifies this`queue, this`skipped
      ensures var over := Excess(|old(queue)|, cfg.maxPending);
              queue == old(queue)[over..] && skipped == old(skipped) + over
    {
      while |queue| > cfg.maxPending
        invariant |old(queue)| - Excess(|old(queue)|, cfg.maxPending) <= |queue| <= |old(queue)|
        invariant queue == old(queue)[|old(queue)| - |queue|..]
        invariant skipped == old(skipped) + |old(queue)| - |queue|
      {
        queue := queue[1..];
        skipped := skipped + 1;
      }
    }

    /** The lines of `p` cut off one by one, as the inner loop of `readNew` does. */
    static method TakeLines(p: Bytes) returns (lines: seq<Line>, rest: Bytes)
      ensures lines == NonEmpty(Lines(p))
      ensures rest == Tail(p)
    {
      hide Lines, Tail, NonEmpty;
      rest := p;
      lines := [];
      while |rest| > 0
        invariant lines + NonEmpty(Lines(rest)) == NonEmpty(Lines(p))
        invariant Tail(rest) == Tail(p)
      {
        var i := FirstIndexByte(rest);
        if i < 0 {
          NothingToTake(rest);
          return;
        }
        var l, after := rest[..i], rest[i + 1..];
        assert rest == l + [NEWLINE] + after;
        NonEmptyPeel(l, after);
        if l != [] {
          lines := lines + [l];
        }
        rest := after;
      }
      NothingToTake(rest);
    }

    static method FirstIndexByte(b: Bytes) returns (i: int)
      ensures -1 <= i < |b|
      ensures i == -1 ==> NEWLINE !in b
      ensures i >= 0 ==> b[i] == NEWLINE && NEWLINE !in b[..i]
    {
      i := 0;
      while i < |b|
        invariant 0 <= i <= |b|
        invariant NEWLINE !in b[..i]
      {
        if b[i] == NEWLINE {
          return;
        }
        i := i + 1;
      }
      i := -1;
    }

    /** One pass over whatever the file has grown by; `cuts` are the sizes the
        successive `ReadAt` calls return. */
    method ReadNew(file: Bytes, cuts: seq<nat>) returns (n: nat)
      requires |queue| <= cfg.maxPending
      requires LegalReads(|file| - offset, cuts)
      modifies this
      ensures View() == AbsorbedAll(cfg, old(View()), file, cuts)
      ensures |led.handed| == |old(led).handed| + n
      ensures |queue| <= cfg.maxPending
    {
      hide Absorbed;
      n := 0;
      var k := 0;
      while k < |cuts|
        invariant 0 <= k <= |cuts|
        invariant LegalReads(|file| - offset, cuts[k..])
        invariant AbsorbedAll(cfg, View(), file, cuts[k..]) == AbsorbedAll(cfg, old(View()), file, cuts)
        invariant |led.handed| == |old(led).handed| + n
        invariant |queue| <= cfg.maxPending
      {
        var got := cuts[k];
        assert cuts[k..][1..] == cuts[k + 1..];
        ghost var t' := AbsorbedAllStep(cfg, View(), file, cuts[k..]);
        if got > 0 {
          var m := Absorb(file[offset..offset + got]);
          n := n + m;
        }
        k := k + 1;
      }
    }

    method Absorb(chunk: Bytes) returns (n: nat)
      requires |queue| <= cfg.maxPending
      modifies this
      ensures View() == Absorbed(cfg, old(View()), chunk)
      ensures offset == old(offset) + |chunk|
      ensures |led.handed| == |old(led).handed| + n
      ensures |queue| <= cfg.maxPending
    {
      hide EnqueuedAll, NonEmpty, Lines, Tail, Join;
      n := 0;
      offset := offset + |chunk|;
      partial := partial + chunk;
      if |partial| > MAX_LINE {
        partial := [];
        skipped := skipped + 1;
        led := led.(kept := Join(Lines(led.kept)), oversize := led.oversize + 1);
        return;
      }
      var lines, rest := TakeLines(partial);
      partial := rest;
      led := led.(kept := led.kept + chunk);
      EnqueuedAllFrame(cfg, View(), lines);
      EnqueueAll(lines);
      n := |lines|;
    }

    method EnqueueAll(lines: seq<Line>)
      requires |queue| <= cfg.maxPending
      modifies this
      ensures View() == EnqueuedAll(cfg, old(View()), lines)
      ensures |queue| <= cfg.maxPending
    {
      for n := 0 to |lines|
        invariant View() == EnqueuedAll(cfg, old(View()), lines[..n])
        invariant |queue| <= cfg.maxPending
      {
        assert lines[..n + 1][..n] == lines[..n];
        Enqueue(lines[n]);
      }
      assert lines[..|lines|] == lines;
    }

    /** Ship at most one batch to the enabled sinks; persist only if all accept. */
    method Flush(out: Outside, o: Outcome)
      modifies this, out
      ensures View() == Flushed(cfg, old(View()), old(out.View()), o).0
      ensures out.View() == Flushed(cfg, old(View()), old(out.View()), o).1
    {
      if |queue| == 0 {
        return;
      }
      var n := cfg.batchSize;
      if |queue| < n {
        n := |queue|;
      }
      var raw := queue[..n];
      var entries := ParseAll(raw);
      ghost var t, w := View(), out.View();
      assert n == Min(cfg.batchSize, |t.mem.queue|) && entries == Batch(cfg, t);
      assert raw + queue[n..] == t.mem.queue;
      queue := queue[n..];
      if |entries| > 0 {
        Ship(out, raw, entries, o);
        if Accepted(cfg, o) {
          assert View() == Flushed(cfg, t, w, o).0;
        } else {
          assert View() == Flushed(cfg, t, w, o).0;
        }
      }
    }

    /** The batch has left the queue: deliver it, or put it back. */
    method Ship(out: Outside, raw: seq<Line>, entries: seq<Line>, o: Outcome)
      requires raw != []
      modifies this, out
      ensures offset == old(offset) && partial == old(partial)
      ensures Accepted(cfg, o) ==>
                && queue == old(queue) && failed == old(failed) && skipped == old(skipped)
                && pushed == old(pushed) + |entries|
                && led == old(led).(delivered := old(led).delivered + entries)
                && out.state == (if o.stateOk then At(offset) else old(out.state))
      ensures !Accepted(cfg, o) ==>
                var q := raw + old(queue);
                var over := Excess(|q|, cfg.maxPending);
                && queue == q[..|q| - over] && failed == old(failed) + 1 && skipped == old(skipped) + over
                && pushed == old(pushed) && led == old(led) && out.state == old(out.state)
      ensures out.loki == if cfg.lokiOn && o.lokiOk then old(out.loki) + entries else old(out.loki)
      ensures out.uplink == if cfg.uplinkOn && o.uplinkOk then old(out.uplink) + entries else old(out.uplink)
    {
      var failedLines := Send(out, raw, entries, o);
      if |failedLines| > 0 {
        Requeue(failedLines);
      } else {
        pushed := pushed + |entries|;
        led := led.(delivered := led.delivered + entries);
        out.WriteState(offset, o.stateOk);
      }
    }

    /** Put a refused batch back at the front, within the cap. */
    method Requeue(failedLines: seq<Line>)
      modifies this`queue, this`failed, this`skipped
      ensures var q := failedLines + old(queue);
              var over := Excess(|q|, cfg.maxPending);
              queue == q[..|q| - over] && skipped == old(skipped) + over && failed == old(failed) + 1
    {
      queue := failedLines + queue;
      failed := failed + 1;
      ghost var q := queue;
      while |queue| > cfg.maxPending
        modifies this`queue, this`skipped
        invariant |q| - Excess(|q|, cfg.maxPending) <= |queue| <= |q|
        invariant queue == q[..|queue|]
        invariant skipped == old(skipped) + |q| - |queue|
      {
        queue := queue[..|queue| - 1];
        skipped := skipped + 1;
      }
    }

    /** Offer the entries to each enabled sink; return the lines to queue again. */
    method Send(out: Outside, raw: seq<Line>, entries: seq<Line>, o: Outcome) returns (failedLines: seq<Line>)
      requires raw != []
      modifies out
      ensures out.state == old(out.state)
      ensures out.loki == if cfg.lokiOn && o.lokiOk then old(out.loki) + entries else old(out.loki)
      ensures out.uplink == if cfg.uplinkOn && o.uplinkOk then old(out.uplink) + entries else old(out.uplink)
      ensures failedLines == if Accepted(cfg, o) then [] else raw
    {
      failedLines := [];
      if cfg.lokiOn {
        if o.lokiOk {
          out.loki := out.loki + entries;
        } else {
          failedLines := failedLines + raw;
        }
      }
      if cfg.uplinkOn {
        if o.uplinkOk {
          out.uplink := out.uplink + entries;
        } else if failedLines == [] {
          failedLines := raw;
        }
      }
    }

    method ParseAll(raw: seq<Line>) returns (entries: seq<Line>)
      ensures entries == Filter(cfg.parse, raw)
    {
      entries := [];
      for i := 0 to |raw|
        invariant entries == Filter(cfg.parse, raw[..i])
      {
        assert raw[..i + 1][..i] == raw[..i];
        if cfg.parse(raw[i]) {
          entries := entries + [raw[i]];
        }
      }
      assert raw[..|raw|] == raw;
    }
  }
}
