/** Whole runs of the shipper: the file grows, the process reads, flushes,
crashes and starts again, in any order.

Each process that ever wrote the offset file leaves a `Track`, the process as it
was when it last did so; `Lives` lists them. `CrashAccounting` says that they
cover the file without gap or overlap from `origin` to the offset on disk and what
became of each one's bytes; `NoLoss` what follows when each was written with
nothing left behind; and `RestartSafeExactly` that this side condition cannot
be weakened.
*/
module LogshipRuns {
  import opened Basics
  import opened LineSplit
  import opened Logship
  import opened LogshipInvariant

  datatype Process = Down | Up(t: Track)

  /** The process as it was when it last wrote the offset file. */
  datatype Snapshot = Unsaved | Saved(t: Track)

  /** `past` and `mine` only record history: the snapshots of earlier processes that
      wrote the offset file, and that of the current (or latest) one; `origin`
      is where shipping began. All three are about the present log file, and `stale`
      says that no process has written an offset for it since it was put there. */
  datatype System = System(
    file: Bytes,
    world: World,
    proc: Process,
    past: seq<Track>,
    mine: Snapshot,
    origin: nat,
    stale: bool)

  datatype Event =
    | Append(more: Bytes)
    | Start
    | Read(n: nat)
    | Flush(o: Outcome)
    | Crash
    | CrashInFlush(o: Outcome)
    | Replace(file: Bytes, state: Persisted)

  ghost function Initial(file: Bytes): System {
    System(file, World(Absent, [], []), Down, [], Unsaved, 0, false)
  }

  /** Every process that wrote the offset file, as it was when it last did so. */
  ghost function Lives(s: System): seq<Track> {
    match s.mine
    case Unsaved => s.past
    case Saved(t) => s.past + [t]
  }

  /** Does this flush reach `writeState` and succeed there? */
  ghost predicate Persists(c: Config, t: Track, o: Outcome) {
    t.mem.queue != [] && Batch(c, t) != [] && Accepted(c, o) && o.stateOk
  }

  ghost function Step(c: Config, s: System, e: Event): System {
    match e
    case Append(more) => s.(file := s.file + more)
    case Start => if s.proc.Up? then s else Started(c, s)
    case Read(n) =>
      if CanRead(s, n) then
        var off := s.proc.t.mem.offset;
        s.(proc := Up(Absorbed(c, s.proc.t, s.file[off..off + n])))
      else s
    case Flush(o) => if s.proc.Up? then FlushStep(c, s, o) else s
    case Crash => s.(proc := Down)
    case CrashInFlush(o) =>
      if s.proc.Up? && s.proc.t.mem.queue != [] then
        s.(proc := Down, world := SinksAfter(c, s.proc.t, s.world, o))
      else s
    case Replace(file, state) => if s.proc.Up? then s else Replaced(s, file, state)
  }

  /** While no process runs the log file is rotated, cut or deleted and written anew, and the
      offset file stays as it is, is lost, or is overwritten. */
  ghost function Replaced(s: System, file: Bytes, state: Persisted): System {
    s.(file := file, world := s.world.(state := state), past := [], mine := Unsaved, stale := true)
  }

  ghost predicate CanRead(s: System, n: nat) {
    s.proc.Up? && 0 < n <= BUF_SIZE && s.proc.t.mem.offset + n <= |s.file|
  }

  ghost function Started(c: Config, s: System): System {
    var t := Boot(c, s.world.state, |s.file|);
    s.(proc := Up(t), past := Lives(s), mine := Unsaved,
       origin := if Lives(s) != [] then s.origin else t.mem.offset)
  }

  ghost function FlushStep(c: Config, s: System, o: Outcome): System
    requires s.proc.Up?
  {
    var (t, w) := Flushed(c, s.proc.t, s.world, o);
    var s' := s.(proc := Up(t), world := w);
    if Persists(c, s.proc.t, o) then s'.(mine := Saved(t), stale := false) else s'
  }

  ghost function Run(c: Config, s: System, es: seq<Event>): System
    decreases |es|
  {
    if es == [] then s else Run(c, Step(c, s, es[0]), es[1..])
  }

  /** The lives' records put together, in order. */
  ghost function Deliveries(ts: seq<Track>): seq<Line> {
    if ts == [] then [] else Deliveries(ts[..|ts| - 1]) + ts[|ts| - 1].led.delivered
  }

  ghost function Drops(ts: seq<Track>): seq<Line> {
    if ts == [] then [] else Drops(ts[..|ts| - 1]) + ts[|ts| - 1].led.dropped
  }

  ghost function Kept(ts: seq<Track>): Bytes {
    if ts == [] then [] else Kept(ts[..|ts| - 1]) + ts[|ts| - 1].led.kept
  }

  /** Each life begins to read where the one before had saved its offset. */
  ghost predicate Tiles(ts: seq<Track>, from: nat, upto: int) {
    if ts == [] then from == upto
    else ts[|ts| - 1].mem.offset == upto && Tiles(ts[..|ts| - 1], from, ts[|ts| - 1].led.base)
  }

  lemma OneMoreLife(ts: seq<Track>, t: Track)
    ensures Deliveries(ts + [t]) == Deliveries(ts) + t.led.delivered
    ensures Drops(ts + [t]) == Drops(ts) + t.led.dropped
    ensures Kept(ts + [t]) == Kept(ts) + t.led.kept
    ensures forall from: nat :: Tiles(ts + [t], from, t.mem.offset) <==> Tiles(ts, from, t.led.base)
  {
    assert (ts + [t])[..|ts|] == ts;
  }

  /** `ls` were accepted, in order, by every enabled sink. */
  ghost predicate AcceptedBySinks(c: Config, w: World, ls: seq<Line>) {
    (c.lokiOn ==> Subsequence(ls, w.loki)) && (c.uplinkOn ==> Subsequence(ls, w.uplink))
  }

  ghost predicate LifeOk(c: Config, file: Bytes, t: Track) {
    Wellformed(c, t) && ReadsFile(t, file)
  }

  ghost predicate LivesOk(c: Config, file: Bytes, ts: seq<Track>) {
    forall k :: 0 <= k < |ts| ==> LifeOk(c, file, ts[k])
  }

  ghost predicate LiveOk(c: Config, s: System, t: Track) {
    && LifeOk(c, s.file, t)
    && Tiles(s.past, s.origin, t.led.base)
    && AcceptedBySinks(c, s.world, Deliveries(s.past) + t.led.delivered)
  }

  ghost predicate DiskOk(c: Config, s: System, ts: seq<Track>) {
    if ts == [] then s.world.state.Absent? || s.stale
    else s.world.state.At? && Tiles(ts, s.origin, s.world.state.offset)
  }

  ghost predicate Ok(c: Config, s: System) {
    && (s.proc.Up? ==> LiveOk(c, s, s.proc.t))
    && LivesOk(c, s.file, Lives(s))
    && DiskOk(c, s, Lives(s))
    && AcceptedBySinks(c, s.world, Deliveries(Lives(s)))
  }

  lemma ReadsFileGrows(t: Track, file: Bytes, more: Bytes)
    requires ReadsFile(t, file)
    ensures ReadsFile(t, file + more)
  {
    assert (file + more)[t.led.base..t.mem.offset] == file[t.led.base..t.mem.offset];
  }

  /** A flush attempt only adds to the sinks, and adds the batch to both if accepted. */
  lemma SinksGrow(c: Config, t: Track, w: World, o: Outcome, ls: seq<Line>)
    requires AcceptedBySinks(c, w, ls)
    ensures AcceptedBySinks(c, SinksAfter(c, t, w, o), ls)
    ensures Accepted(c, o) ==> AcceptedBySinks(c, SinksAfter(c, t, w, o), ls + Batch(c, t))
  {
    var b := Batch(c, t);
    if c.lokiOn {
      SubsequenceExtend(ls, w.loki, b);
      SubsequenceBoth(ls, w.loki, b);
    }
    if c.uplinkOn {
      SubsequenceExtend(ls, w.uplink, b);
      SubsequenceBoth(ls, w.uplink, b);
    }
  }

  lemma InitialOk(c: Config, file: Bytes)
    ensures Ok(c, Initial(file))
  {
    var none: seq<Line> := [];
    SubsequenceRefl(none);
  }

  lemma LivesGrow(c: Config, file: Bytes, more: Bytes, ts: seq<Track>)
    requires LivesOk(c, file, ts)
    ensures LivesOk(c, file + more, ts)
  {
    hide Wellformed, ReadsFile;
    forall k | 0 <= k < |ts|
      ensures LifeOk(c, file + more, ts[k])
    {
      assert LifeOk(c, file, ts[k]);
      ReadsFileGrows(ts[k], file, more);
    }
  }

  lemma AppendOk(c: Config, s: System, more: Bytes)
    requires Ok(c, s)
    ensures Ok(c, Step(c, s, Append(more)))
  {
    hide LivesOk, Wellformed, ReadsFile, Tiles, Deliveries, AcceptedBySinks;
    if s.proc.Up? { ReadsFileGrows(s.proc.t, s.file, more); }
    LivesGrow(c, s.file, more, Lives(s));
  }

  /** A fresh process begins where the last life saved its offset. */
  lemma StartFacts(c: Config, s: System) returns (t: Track)
    requires Ok(c, s)
    ensures t == Boot(c, s.world.state, |s.file|)
    ensures LifeOk(c, s.file, t)
    ensures t.led.base == t.mem.offset
    ensures Lives(s) != [] ==> s.world.state == At(t.mem.offset)
  {
    hide Wellformed, ReadsFile, Tiles, Deliveries, AcceptedBySinks;
    t := Boot(c, s.world.state, |s.file|);
    BootLives(c, s.file, s.world.state);
    if Lives(s) != [] {
      LastLife(c, s.file, Lives(s), s.origin, s.world.state.offset);
    }
  }

  lemma BootLives(c: Config, file: Bytes, state: Persisted)
    ensures LifeOk(c, file, Boot(c, state, |file|))
  {
    hide Wellformed;
    BootWellformed(c, state, |file|);
  }

  /** The offset on disk lies within the file. */
  lemma LastLife(c: Config, file: Bytes, ts: seq<Track>, from: nat, upto: int)
    requires LivesOk(c, file, ts) && ts != [] && Tiles(ts, from, upto)
    ensures 0 <= upto <= |file|
  {
    hide Wellformed, Plain;
    assert LifeOk(c, file, ts[|ts| - 1]);
  }

  lemma StartOk(c: Config, s: System)
    requires Ok(c, s) && s.proc.Down?
    ensures Ok(c, Started(c, s))
  {
    var t := StartFacts(c, s);
    hide Wellformed, ReadsFile, Tiles, Deliveries, AcceptedBySinks;
    assert Deliveries(Lives(s)) + [] == Deliveries(Lives(s));
    if Lives(s) == [] {
      EmptyTiles(t.mem.offset);
    }
  }

  lemma EmptyTiles(at: nat)
    ensures Tiles([], at, at)
  {
  }

  lemma ReadFacts(c: Config, s: System, n: nat) returns (t: Track)
    requires c.Valid() && Ok(c, s) && CanRead(s, n)
    ensures Step(c, s, Read(n)) == s.(proc := Up(t))
    ensures LifeOk(c, s.file, t)
    ensures t.led.base == s.proc.t.led.base && t.led.delivered == s.proc.t.led.delivered
  {
    hide Absorbed, Accounted, LivesOk, DiskOk, AcceptedBySinks;
    var t0 := s.proc.t;
    t := Absorbed(c, t0, s.file[t0.mem.offset..t0.mem.offset + n]);
    AbsorbedWellformed(c, t0, s.file[t0.mem.offset..t0.mem.offset + n]);
    AbsorbedReads(c, t0, s.file, n);
  }

  lemma ReadOk(c: Config, s: System, n: nat)
    requires c.Valid() && Ok(c, s) && CanRead(s, n)
    ensures Ok(c, Step(c, s, Read(n)))
  {
    hide Absorbed, LifeOk, AcceptedBySinks, Tiles, Deliveries;
    var t := ReadFacts(c, s, n);
  }

  /** What the sinks know after a flush, delivered or refused. */
  lemma FlushSinks(c: Config, t: Track, w: World, o: Outcome, ls: seq<Line>)
    requires AcceptedBySinks(c, w, ls)
    ensures AcceptedBySinks(c, Flushed(c, t, w, o).1, ls)
  {
    SinksGrow(c, t, w, o, ls);
  }

  lemma FlushDelivers(c: Config, t: Track, w: World, o: Outcome, past: seq<Line>)
    requires c.Valid() && Wellformed(c, t) && AcceptedBySinks(c, w, past + t.led.delivered)
    ensures AcceptedBySinks(c, Flushed(c, t, w, o).1, past + Flushed(c, t, w, o).0.led.delivered)
    ensures Flushed(c, t, w, o).1.state == if Persists(c, t, o) then At(t.mem.offset) else w.state
  {
    SinksGrow(c, t, w, o, past + t.led.delivered);
    assert past + t.led.delivered + Batch(c, t) == past + (t.led.delivered + Batch(c, t));
  }

  /** The part of a flush that matters to a run, with the definitions folded away. */
  lemma FlushFacts(c: Config, s: System, o: Outcome) returns (t: Track, w: World)
    requires c.Valid() && Ok(c, s) && s.proc.Up?
    ensures t == Flushed(c, s.proc.t, s.world, o).0 && w == Flushed(c, s.proc.t, s.world, o).1
    ensures LifeOk(c, s.file, t)
    ensures t.led.base == s.proc.t.led.base && t.mem.offset == s.proc.t.mem.offset
    ensures AcceptedBySinks(c, w, Deliveries(s.past) + t.led.delivered)
    ensures AcceptedBySinks(c, w, Deliveries(Lives(s)))
    ensures w.state == if Persists(c, s.proc.t, o) then At(t.mem.offset) else s.world.state
  {
    var t0 := s.proc.t;
    FlushedWellformed(c, t0, s.world, o);
    FlushEffect(c, t0, s.world, o);
    FlushDelivers(c, t0, s.world, o, Deliveries(s.past));
    FlushSinks(c, t0, s.world, o, Deliveries(Lives(s)));
    t, w := Flushed(c, t0, s.world, o).0, Flushed(c, t0, s.world, o).1;
    hide Flushed, Wellformed;
  }

  lemma FlushOk(c: Config, s: System, o: Outcome)
    requires c.Valid() && Ok(c, s) && s.proc.Up?
    ensures Ok(c, FlushStep(c, s, o))
  {
    hide Flushed, LifeOk, AcceptedBySinks, Tiles, Deliveries, Persists;
    var t, w := FlushFacts(c, s, o);
    var s' := FlushStep(c, s, o);
    assert s'.proc == Up(t) && s'.world == w;
    if Persists(c, s.proc.t, o) {
      OneMoreLife(s.past, t);
      forall k | 0 <= k < |s.past| + 1
        ensures LifeOk(c, s.file, (s.past + [t])[k])
      {
        assert k < |s.past| ==> (s.past + [t])[k] == Lives(s)[k];
      }
    }
  }

  lemma CrashInFlushOk(c: Config, s: System, o: Outcome)
    requires Ok(c, s)
    ensures Ok(c, Step(c, s, CrashInFlush(o)))
  {
    if s.proc.Up? && s.proc.t.mem.queue != [] {
      SinksGrow(c, s.proc.t, s.world, o, Deliveries(Lives(s)));
    }
  }

  lemma ReplaceOk(c: Config, s: System, file: Bytes, state: Persisted)
    requires Ok(c, s) && s.proc.Down?
    ensures Ok(c, Replaced(s, file, state))
  {
    var none: seq<Line> := [];
    assert Embeds([], none, s.world.loki) && Embeds([], none, s.world.uplink);
  }

  /** Every step of every kind keeps the invariant. */
  lemma StepOk(c: Config, s: System, e: Event)
    requires c.Valid() && Ok(c, s)
    ensures Ok(c, Step(c, s, e))
  {
    hide Ok;
    match e
    case Append(more) => AppendOk(c, s, more);
    case Start => if s.proc.Down? { StartOk(c, s); }
    case Read(n) => if CanRead(s, n) { ReadOk(c, s, n); }
    case Flush(o) => if s.proc.Up? { FlushOk(c, s, o); }
    case Crash => CrashOk(c, s);
    case CrashInFlush(o) => CrashInFlushOk(c, s, o);
    case Replace(file, state) => if s.proc.Down? { ReplaceOk(c, s, file, state); }
  }

  lemma CrashOk(c: Config, s: System)
    requires Ok(c, s)
    ensures Ok(c, s.(proc := Down))
  {
  }

  lemma {:induction false} RunOk(c: Config, s: System, es: seq<Event>)
    requires c.Valid() && Ok(c, s)
    ensures Ok(c, Run(c, s, es))
    decreases |es|
  {
    hide Ok, Step;
    if es != [] {
      StepOk(c, s, es[0]);
      RunOk(c, Step(c, s, es[0]), es[1..]);
    }
  }

  /** Each line of what this life kept is delivered, queued, dropped for the cap or
      found unparseable, and the counter of skipped lines is right. */
  ghost predicate AccountedFor(c: Config, t: Track) {
    var good := Good(c, t.led.kept);
    && Settled(good, t.led.delivered, t.mem.queue, t.led.dropped)
    && t.mem.partial == Tail(t.led.kept)
    && t.mem.skipped == |NonEmpty(Lines(t.led.kept))| - |good| + |t.led.dropped| + t.led.oversize
  }

  lemma {:induction false} NeverStale(c: Config, s: System, es: seq<Event>)
    requires !s.stale && forall k :: 0 <= k < |es| ==> !es[k].Replace?
    ensures !Run(c, s, es).stale
    decreases |es|
  {
    hide Flushed, Absorbed;
    if es != [] {
      NeverStale(c, Step(c, s, es[0]), es[1..]);
    }
  }

  /** CRASH ACCOUNTING. In every run the file from `origin` to the offset on disk is
      divided among the lives that wrote that offset; each had, when it last
      wrote it, accounted for every line of its part; and all they count as
      delivered is in every enabled sink, in file order. Only where the file has been
      replaced can there be an offset on disk that none of them wrote. */
  lemma CrashAccounting(c: Config, file: Bytes, es: seq<Event>)
    requires c.Valid()
    ensures var s := Run(c, Initial(file), es);
            && (Lives(s) != [] ==> s.world.state.At? && Tiles(Lives(s), s.origin, s.world.state.offset))
            && (Lives(s) == [] ==> s.world.state == Absent || s.stale)
            && ((forall k :: 0 <= k < |es| ==> !es[k].Replace?) ==> !s.stale)
            && (forall k :: 0 <= k < |Lives(s)| ==> ReadsFile(Lives(s)[k], s.file) && AccountedFor(c, Lives(s)[k]))
            && AcceptedBySinks(c, s.world, Deliveries(Lives(s)))
  {
    InitialOk(c, file);
    RunOk(c, Initial(file), es);
    var s := Run(c, Initial(file), es);
    if forall k :: 0 <= k < |es| ==> !es[k].Replace? {
      NeverStale(c, Initial(file), es);
    }
    hide Run;
    forall k | 0 <= k < |Lives(s)|
      ensures ReadsFile(Lives(s)[k], s.file) && AccountedFor(c, Lives(s)[k])
    {
      assert LifeOk(c, s.file, Lives(s)[k]);
    }
  }

  /** TAIL LOOP. In every run a living process balances its counters; its queue is the
      latest of the parseable input, and what it has delivered followed by the
      queue is that input in order, with nothing missing while the cap was not hit. */
  lemma TailLoop(c: Config, file: Bytes, es: seq<Event>)
    requires c.Valid()
    ensures var s := Run(c, Initial(file), es);
            s.proc.Up? && s.proc.t.led.oversize == 0 ==>
              var t := s.proc.t;
              && t.led.base <= t.mem.offset <= |s.file|
              && var input := s.file[t.led.base..t.mem.offset];
              && t.mem.pushed + |t.mem.queue| + t.mem.skipped == |NonEmpty(Lines(input))|
              && Subsequence(t.led.delivered + t.mem.queue, Good(c, input))
              && Latest(t.mem.queue, Good(c, input))
              && (t.led.dropped == [] ==> t.led.delivered + t.mem.queue == Good(c, input))
  {
    InitialOk(c, file);
    RunOk(c, Initial(file), es);
    var s := Run(c, Initial(file), es);
    if s.proc.Up? {
      Conservation(c, s.proc.t);
    }
  }

  /** REASSEMBLY, EXACTLY. In every run the lines a living process has handed on, and the
      bytes it holds back, are those of the part of the file it has consumed, if
      and only if none of its reads was dropped for the size limit. */
  lemma ReassemblyExactly(c: Config, file: Bytes, es: seq<Event>)
    requires c.Valid()
    ensures var s := Run(c, Initial(file), es);
            s.proc.Up? ==>
              var t := s.proc.t;
              && t.led.base <= t.mem.offset <= |s.file|
              && var seen := s.file[t.led.base..t.mem.offset];
              ((t.led.handed == NonEmpty(Lines(seen)) && t.mem.partial == Tail(seen)) <==> t.led.oversize == 0)
  {
    InitialOk(c, file);
    RunOk(c, Initial(file), es);
    var s := Run(c, Initial(file), es);
    hide Run;
    if s.proc.Up? {
      SplitExactly(c, s.proc.t, s.file);
    }
  }

  /** Nothing was queued or held back. */
  ghost predicate Flat(t: Track) {
    t.mem.queue == [] && t.mem.partial == []
  }

  ghost predicate AllFlat(ts: seq<Track>) {
    forall k :: 0 <= k < |ts| ==> Flat(ts[k])
  }

  ghost predicate NoOversize(ts: seq<Track>) {
    forall k :: 0 <= k < |ts| ==> ts[k].led.oversize == 0
  }

  /** Over all these lives the parseable lines were delivered once each and in order, dropped
      for the cap, or are in the last one's queue. */
  ghost predicate Lossless(c: Config, ts: seq<Track>)
    requires ts != []
  {
    Settled(Good(c, Kept(ts)), Deliveries(ts), ts[|ts| - 1].mem.queue, Drops(ts))
  }

  /** Two stretches of a file, the first of which ends at a line end. */
  lemma GoodAppend(c: Config, a: Bytes, b: Bytes)
    requires Tail(a) == []
    ensures Good(c, a + b) == Good(c, a) + Good(c, b)
    ensures Tail(a + b) == Tail(b)
  {
    SplitAppend(a, b);
    assert Tail(a) + b == b;
    FilterAppend(HasText, Lines(a), Lines(b));
    FilterAppend(c.parse, NonEmpty(Lines(a)), NonEmpty(Lines(b)));
  }

  /** One accounting after another, when the first left nothing queued. */
  lemma SettledConcat(g: seq<Line>, d: seq<Line>, x: seq<Line>,
                      g': seq<Line>, d': seq<Line>, q': seq<Line>, x': seq<Line>)
    requires Settled(g, d, [], x) && Settled(g', d', q', x')
    ensures Settled(g + g', d + d', q', x + x')
  {
    assert d + [] == d && d + d' + q' == d + (d' + q');
    SubsequenceConcat(d, g, d' + q', g');
    assert (g + g')[|g + g'| - |q'|..] == g'[|g'| - |q'|..];
    MultisetsOf(g, g');
    MultisetsOf(d, d');
    MultisetsOf(x, x');
  }

  /** Lives that left nothing behind, and one more that may have. */
  lemma {:induction false} ChainSettled(c: Config, ts: seq<Track>, t: Track)
    requires (forall k :: 0 <= k < |ts| ==> Wellformed(c, ts[k])) && Wellformed(c, t)
    requires AllFlat(ts)
    ensures Lossless(c, ts + [t])
    ensures Tail(Kept(ts + [t])) == t.mem.partial
    decreases |ts|
  {
    hide Wellformed, Good, Settled, Tail, Kept, Deliveries, Drops;
    OneMoreLife(ts, t);
    OneLifeSettled(c, t);
    if ts == [] {
      NoLives();
      assert [] + t.led.kept == t.led.kept;
      assert [] + t.led.delivered == t.led.delivered && [] + t.led.dropped == t.led.dropped;
    } else {
      var init, t0 := ts[..|ts| - 1], ts[|ts| - 1];
      ChainSettled(c, init, t0);
      assert init + [t0] == ts && Flat(t0);
      GoodAppend(c, Kept(ts), t.led.kept);
      SettledConcat(Good(c, Kept(ts)), Deliveries(ts), Drops(ts),
                    Good(c, t.led.kept), t.led.delivered, t.mem.queue, t.led.dropped);
    }
  }

  lemma NoLives()
    ensures Kept([]) == [] && Deliveries([]) == [] && Drops([]) == []
  {
  }

  lemma OneLifeSettled(c: Config, t: Track)
    requires Wellformed(c, t)
    ensures Settled(Good(c, t.led.kept), t.led.delivered, t.mem.queue, t.led.dropped)
    ensures t.mem.partial == Tail(t.led.kept)
  {
  }

  lemma LifeSpan(c: Config, file: Bytes, t: Track)
    requires LifeOk(c, file, t)
    ensures t.led.base <= t.mem.offset <= |file|
    ensures t.led.oversize == 0 ==> t.led.kept == file[t.led.base..t.mem.offset]
  {
  }

  /** Without size drops what the lives kept is the stretch of the file they cover. */
  lemma {:induction false} KeptIsFile(c: Config, file: Bytes, ts: seq<Track>, from: nat, upto: int)
    requires LivesOk(c, file, ts) && Tiles(ts, from, upto) && upto <= |file|
    ensures from <= upto
    ensures NoOversize(ts) ==> Kept(ts) == file[from..upto]
    decreases |ts|
  {
    hide LifeOk;
    if ts != [] {
      var init, t := ts[..|ts| - 1], ts[|ts| - 1];
      LifeSpan(c, file, t);
      KeptIsFile(c, file, init, from, t.led.base);
      if NoOversize(ts) {
        assert NoOversize(init);
        assert file[from..t.led.base] + file[t.led.base..upto] == file[from..upto];
      }
    }
  }

  /** What the chain of lives `ts`, of which all but the last left nothing behind, has
      made of the file from `s.origin` on. */
  ghost predicate Secured(c: Config, s: System, ts: seq<Track>)
    requires ts != []
  {
    && Lossless(c, ts)
    && AcceptedBySinks(c, s.world, Deliveries(ts))
    && s.origin <= ts[|ts| - 1].mem.offset <= |s.file|
    && (NoOversize(ts) ==> Kept(ts) == s.file[s.origin..ts[|ts| - 1].mem.offset])
  }

  lemma ChainSecured(c: Config, s: System, ts: seq<Track>, t: Track)
    requires LivesOk(c, s.file, ts) && LifeOk(c, s.file, t) && AllFlat(ts)
    requires Tiles(ts, s.origin, t.led.base)
    requires AcceptedBySinks(c, s.world, Deliveries(ts) + t.led.delivered)
    ensures Secured(c, s, ts + [t])
  {
    hide Wellformed, ReadsFile, Tiles, Kept, AcceptedBySinks, Lossless;
    forall k | 0 <= k < |ts| ensures Wellformed(c, ts[k]) {
      assert LifeOk(c, s.file, ts[k]);
    }
    ChainSettled(c, ts, t);
    OneMoreLife(ts, t);
    LifeSpan(c, s.file, t);
    hide LifeOk;
    KeptIsFile(c, s.file, ts + [t], s.origin, t.mem.offset);
  }

  lemma DiskSecured(c: Config, s: System)
    requires Ok(c, s) && Lives(s) != [] && AllFlat(Lives(s))
    ensures var ts := Lives(s);
            s.world.state.At? && ts[|ts| - 1].mem.offset == s.world.state.offset && Secured(c, s, ts)
  {
    hide LiveOk, LifeOk, AcceptedBySinks, Secured, Kept, Drops, Lives;
    var ts := Lives(s);
    var init, t := ts[..|ts| - 1], ts[|ts| - 1];
    assert init + [t] == ts;
    ChainSecured(c, s, init, t);
  }

  lemma LiveSecured(c: Config, s: System)
    requires Ok(c, s) && s.proc.Up? && AllFlat(s.past)
    ensures Secured(c, s, s.past + [s.proc.t])
  {
    hide LifeOk, AcceptedBySinks, Secured, Kept, Drops, Deliveries, Tiles, DiskOk;
    assert forall k :: 0 <= k < |s.past| ==> s.past[k] == Lives(s)[k];
    ChainSecured(c, s, s.past, s.proc.t);
  }

  /** NO LOSS. Take any run, over any number of crashes and restarts, in which each
      process that wrote the offset file had nothing queued and nothing held back
      when it last did so. Then every parseable line from `origin` to the offset
      on disk is in every enabled sink unless it was dropped for a limit, and the
      same goes for what the living process has read, if that also counts the
      lines it has queued. */
  lemma NoLoss(c: Config, file: Bytes, es: seq<Event>)
    requires c.Valid()
    ensures var s := Run(c, Initial(file), es);
            && (Lives(s) != [] && AllFlat(Lives(s)) ==>
                  && s.world.state.At?
                  && Lives(s)[|Lives(s)| - 1].mem.offset == s.world.state.offset
                  && Secured(c, s, Lives(s)))
            && (s.proc.Up? && AllFlat(s.past) ==> Secured(c, s, s.past + [s.proc.t]))
  {
    var s := Run(c, Initial(file), es);
    InitialOk(c, file);
    RunOk(c, Initial(file), es);
    hide Run, Ok, Secured, Lives;
    if Lives(s) != [] && AllFlat(Lives(s)) {
      DiskSecured(c, s);
    }
    if s.proc.Up? && AllFlat(s.past) {
      LiveSecured(c, s);
    }
  }

  /** What a living process does by itself. */
  ghost predicate Works(es: seq<Event>) {
    forall k :: 0 <= k < |es| ==> es[k].Read? || es[k].Flush?
  }

  /** It has read all there is and shipped or dropped all it has read. */
  ghost predicate Drained(s: System) {
    s.proc.Up? && s.proc.t.mem.offset == |s.file| && s.proc.t.mem.queue == []
  }

  /** The living process of `s` dies, the file goes on with `more` behind what it had
      read, and the next process does `es`. */
  ghost function Redone(c: Config, s: System, more: Bytes, es: seq<Event>): System
    requires s.proc.Up? && s.proc.t.mem.offset <= |s.file|
  {
    Run(c, s.(file := s.file[..s.proc.t.mem.offset]), [Crash, Append(more), Start] + es)
  }

  lemma {:induction false} RunAppend(c: Config, s: System, a: seq<Event>, b: seq<Event>)
    ensures Run(c, s, a + b) == Run(c, Run(c, s, a), b)
    decreases |a|
  {
    if a == [] {
      assert a + b == b;
    } else {
      assert (a + b)[0] == a[0] && (a + b)[1..] == a[1..] + b;
      RunAppend(c, Step(c, s, a[0]), a[1..], b);
    }
  }

  lemma {:induction false} LivesWithin(c: Config, file: Bytes, ts: seq<Track>, from: nat, upto: nat)
    requires LivesOk(c, file, ts) && Tiles(ts, from, upto)
    ensures forall k :: 0 <= k < |ts| ==> ts[k].mem.offset <= upto
    decreases |ts|
  {
    hide Wellformed, Plain;
    if ts != [] {
      var init, t := ts[..|ts| - 1], ts[|ts| - 1];
      assert LifeOk(c, file, t);
      LivesWithin(c, file, init, from, t.led.base);
      forall k | 0 <= k < |ts|
        ensures ts[k].mem.offset <= upto
      {
        assert k < |init| ==> init[k] == ts[k];
      }
    }
  }

  lemma ReadsFileCut(t: Track, file: Bytes, upto: nat)
    requires ReadsFile(t, file) && t.mem.offset <= upto <= |file|
    ensures ReadsFile(t, file[..upto])
  {
    assert file[..upto][t.led.base..t.mem.offset] == file[t.led.base..t.mem.offset];
  }

  /** A process of `s` that has just written the offset file. */
  ghost predicate JustSaved(c: Config, s: System) {
    Ok(c, s) && s.proc.Up? && s.mine == Saved(s.proc.t)
  }

  /** The next process, before it does anything. */
  lemma Restarted(c: Config, s: System, more: Bytes) returns (s': System)
    requires c.Valid() && JustSaved(c, s)
    ensures s.proc.t.mem.offset <= |s.file|
    ensures forall es :: Redone(c, s, more, es) == Run(c, s', es)
    ensures Ok(c, s') && s'.file == s.file[..s.proc.t.mem.offset] + more
    ensures s'.past == s.past + [s.proc.t] && s'.origin == s.origin
    ensures s'.proc == Up(Boot(c, At(s.proc.t.mem.offset), |s'.file|)) && s'.proc.t.mem.offset == s.proc.t.mem.offset
  {
    hide Ok, Run, LifeOk;
    var s0 := CutFile(c, s);
    var es0 := [Crash, Append(more), Start];
    RunThree(c, s0, Crash, Append(more), Start);
    s' := Run(c, s0, es0);
    RunOk(c, s0, es0);
    forall es
      ensures Redone(c, s, more, es) == Run(c, s', es)
    {
      RunAppend(c, s0, es0, es);
    }
  }

  lemma CutFile(c: Config, s: System) returns (s0: System)
    requires JustSaved(c, s)
    ensures s.proc.t.mem.offset <= |s.file| && s.proc.Up? && s.mine == Saved(s.proc.t)
    ensures s0 == s.(file := s.file[..s.proc.t.mem.offset]) && Ok(c, s0)
    ensures s0.world.state == At(s.proc.t.mem.offset)
  {
    var ts, off := Lives(s), s.proc.t.mem.offset;
    hide Wellformed, ReadsFile, AcceptedBySinks;
    assert ts[|s.past|] == s.proc.t && LifeOk(c, s.file, s.proc.t);
    LifeInFile(c, s.file, s.proc.t);
    LivesWithin(c, s.file, ts, s.origin, off);
    s0 := s.(file := s.file[..off]);
    forall k | 0 <= k < |ts|
      ensures LifeOk(c, s0.file, ts[k])
    {
      ReadsFileCut(ts[k], s.file, off);
    }
    assert LifeOk(c, s0.file, ts[|s.past|]);
  }

  lemma LifeInFile(c: Config, file: Bytes, t: Track)
    requires LifeOk(c, file, t)
    ensures t.led.base <= t.mem.offset <= |file|
  {
  }

  lemma RunThree(c: Config, s: System, a: Event, b: Event, d: Event)
    ensures Run(c, s, [a, b, d]) == Step(c, Step(c, Step(c, s, a), b), d)
  {
    hide Step;
    var s1 := Step(c, s, a);
    var s2 := Step(c, s1, b);
    assert [a, b, d][1..] == [b, d] && [b, d][1..] == [d] && [d][1..] == [];
    assert Run(c, s2, [d]) == Step(c, s2, d);
    assert Run(c, s1, [b, d]) == Run(c, s2, [d]);
  }

  /** Reading and flushing keep the process alive, and the file and the past as they are. */
  lemma {:induction false} WorkKeeps(c: Config, s: System, es: seq<Event>)
    requires c.Valid() && Ok(c, s) && s.proc.Up? && Works(es)
    ensures var s' := Run(c, s, es);
            && Ok(c, s') && s'.proc.Up? && s'.file == s.file
            && s'.past == s.past && s'.origin == s.origin && s'.proc.t.led.base == s.proc.t.led.base
    decreases |es|
  {
    hide Ok, Step;
    if es != [] {
      StepOk(c, s, es[0]);
      WorkStep(c, s, es[0]);
      assert Works(es[1..]);
      WorkKeeps(c, Step(c, s, es[0]), es[1..]);
    }
  }

  /** Where a start has the shipper begin to read: at a saved offset within the file; at the
      beginning if the offset lies outside, as after a rotation, or cannot be read;
      and without one at the end or the beginning, as configured. */
  ghost function Begins(c: Config, file: Bytes, state: Persisted): int {
    match state
    case At(off) => if 0 <= off <= |file| then off else 0
    case Garbled => 0
    case Absent => if c.startAtEnd then |file| else 0
  }

  /** STARTS, EXACTLY. Whatever has become of the log and the offset file: once the next
      process has read all there is, without a size drop, it has handed on the lines
      from there on, and holds back what follows the last of them. */
  lemma StartReads(c: Config, s: System, file: Bytes, state: Persisted, more: Bytes, es: seq<Event>)
    requires c.Valid() && Ok(c, s) && s.proc.Down? && Works(es)
    ensures 0 <= Begins(c, file, state) <= |file|
    ensures var s' := Run(c, s, [Replace(file, state), Start, Append(more)] + es);
            && s'.proc.Up? && s'.file == file + more
            && (s'.proc.t.mem.offset == |s'.file| && s'.proc.t.led.oversize == 0 ==>
                  && s'.proc.t.led.handed == NonEmpty(Lines(s'.file[Begins(c, file, state)..]))
                  && s'.proc.t.mem.partial == Tail(s'.file[Begins(c, file, state)..]))
  {
    hide Ok, Run, Wellformed, ReadsFile, NonEmpty, Lines, Tail;
    var es0 := [Replace(file, state), Start, Append(more)];
    RunAppend(c, s, es0, es);
    RunThree(c, s, Replace(file, state), Start, Append(more));
    RunOk(c, s, es0);
    var s1 := Run(c, s, es0);
    assert s1.proc == Up(Boot(c, state, |file|)) && s1.file == file + more;
    WorkKeeps(c, s1, es);
    var s' := Run(c, s1, es);
    LiveWellformed(c, s');
    LifeInFile(c, s'.file, s'.proc.t);
    SplitExactly(c, s'.proc.t, s'.file);
    if s'.proc.t.mem.offset == |s'.file| {
      assert s'.file[s'.proc.t.led.base..s'.proc.t.mem.offset] == s'.file[s'.proc.t.led.base..];
    }
  }

  /** ROTATED AWAY. A file shorter than the saved offset is read from its beginning. */
  lemma RotatedFileReadWhole(c: Config, s: System, file: Bytes, off: int, es: seq<Event>)
    requires c.Valid() && Ok(c, s) && s.proc.Down? && Works(es) && off > |file|
    ensures var s' := Run(c, s, [Replace(file, At(off)), Start, Append([])] + es);
            && s'.proc.Up?
            && (s'.proc.t.mem.offset == |file| && s'.proc.t.led.oversize == 0 ==>
                  s'.proc.t.led.handed == NonEmpty(Lines(file)))
  {
    StartReads(c, s, file, At(off), [], es);
    assert (file + [])[0..] == file && file + [] == file;
  }

  lemma WorkStep(c: Config, s: System, e: Event)
    requires c.Valid() && Ok(c, s) && s.proc.Up? && (e.Read? || e.Flush?)
    ensures var s' := Step(c, s, e);
            && s'.proc.Up? && s'.file == s.file
            && s'.past == s.past && s'.origin == s.origin && s'.proc.t.led.base == s.proc.t.led.base
  {
    hide Ok;
    match e
    case Read(n) =>
      if CanRead(s, n) {
        var t := ReadFacts(c, s, n);
      }
    case Flush(o) =>
      var t, w := FlushFacts(c, s, o);
      assert Step(c, s, e) == FlushStep(c, s, o);
  }

  ghost predicate NothingDropped(t: Track) {
    t.led.dropped == [] && t.led.oversize == 0
  }

  /** With nothing left behind, every restart is safe. */
  lemma SafeIfFlat(c: Config, s: System, more: Bytes, es: seq<Event>)
    requires c.Valid() && JustSaved(c, s) && Flat(s.proc.t) && Works(es)
    ensures s.proc.t.mem.offset <= |s.file|
    ensures var s' := Redone(c, s, more, es); s'.proc.Up? && Lossless(c, [s.proc.t, s'.proc.t])
  {
    hide Step, Run, Ok, Wellformed, ReadsFile, Lossless;
    var s1 := Restarted(c, s, more);
    WorkKeeps(c, s1, es);
    var t, t' := s.proc.t, Run(c, s1, es).proc.t;
    LiveWellformed(c, s);
    LiveWellformed(c, Run(c, s1, es));
    ChainSettled(c, [t], t');
    assert [t] + [t'] == [t, t'];
  }

  lemma LiveWellformed(c: Config, s: System)
    requires Ok(c, s) && s.proc.Up?
    ensures Wellformed(c, s.proc.t) && ReadsFile(s.proc.t, s.file)
  {
  }

  /** What has been queued is lost: the next process begins behind it. */
  lemma UnsafeIfQueued(c: Config, s: System)
    requires c.Valid() && JustSaved(c, s) && s.proc.t.mem.queue != []
    ensures s.proc.t.mem.offset <= |s.file|
    ensures Works([]) && Drained(Redone(c, s, [], []))
    ensures !Lossless(c, [s.proc.t, Redone(c, s, [], []).proc.t]) && NothingDropped(Redone(c, s, [], []).proc.t)
  {
    hide Ok, Run, Lossless;
    var s1 := Restarted(c, s, []);
    assert Redone(c, s, [], []) == Run(c, s1, []) == s1 by {
      RunNothing(c, s1);
    }
    LiveWellformed(c, s);
    hide Wellformed, ReadsFile;
    QueuedNotLossless(c, s.proc.t, s1.proc.t);
  }

  lemma RunNothing(c: Config, s: System)
    ensures Run(c, s, []) == s
  {
  }

  lemma QueuedNotLossless(c: Config, t: Track, t': Track)
    requires Wellformed(c, t) && t.mem.queue != []
    requires t'.mem.queue == [] && t'.led == Ledger(t'.led.base, [], [], [], [], 0)
    ensures !Lossless(c, [t, t'])
  {
    OneLifeSettled(c, t);
    hide Wellformed, Good, Settled;
    TwoLives(t, t');
    assert t.led.kept + [] == t.led.kept;
    assert t.led.delivered + [] == t.led.delivered && t.led.dropped + [] == t.led.dropped;
    hide Kept, Deliveries, Drops;
    SettledOneWay(Good(c, t.led.kept), t.led.delivered, t.mem.queue, t.led.dropped);
  }

  lemma SettledOneWay(good: seq<Line>, d: seq<Line>, q: seq<Line>, x: seq<Line>)
    requires Settled(good, d, q, x) && q != []
    ensures !Settled(good, d, [], x)
  {
    hide Latest, Subsequence;
    var l, none: seq<Line> := q[0], [];
    assert multiset(q)[l] > 0;
    assert multiset(good)[l] > (multiset(d) + multiset(none) + multiset(x))[l];
  }

  /** A small well-formed event; `ParseLine` accepts {"msg":"x"}. */
  ghost predicate ShortEvent(c: Config, l: Line) {
    l != [] && NEWLINE !in l && |l| < BUF_SIZE && c.parse(l)
  }

  const ALL_WELL := Outcome(true, true, true)

  /** A process that has read nothing reads one short event. */
  lemma ReadEvent(c: Config, t: Track, l: Line) returns (t': Track)
    requires c.Valid() && ShortEvent(c, l)
    requires t.mem.queue == [] && t.mem.partial == [] && t.led == Ledger(t.mem.offset, [], [], [], [], 0)
    ensures t' == Absorbed(c, t, l + [NEWLINE])
    ensures t'.mem.offset == t.mem.offset + |l| + 1 && t'.mem.queue == [l]
    ensures t'.led == Ledger(t.mem.offset, l + [NEWLINE], [l], [], [], 0)
  {
    hide Absorbed, EnqueuedAll, Enqueued, NonEmpty, Lines, Tail;
    var chunk := l + [NEWLINE];
    t' := Absorbed(c, t, chunk);
    assert [] + chunk == chunk && chunk == l + [NEWLINE] + [];
    NonEmptyPeel(l, []);
    assert [l] + NonEmpty(Lines([])) == [l] by {
      NothingToSplit();
    }
    AbsorbedTaken(c, t, chunk);
    EnqueueFirst(c, Taken(t, chunk), l);
  }

  lemma NothingToSplit()
    ensures NonEmpty(Lines([])) == [] && Tail([]) == []
  {
  }

  lemma EnqueueFirst(c: Config, t: Track, l: Line)
    requires c.Valid() && c.parse(l) && t.mem.queue == [] && t.led.dropped == []
    ensures var t' := EnqueuedAll(c, t, [l]);
            t'.mem == t.mem.(queue := [l]) && t'.led == t.led.(handed := t.led.handed + [l])
  {
    assert [l][..0] == [] && [] + [l] == [l] && [l][0..] == [l] && [] + [l][..0] == [];
    assert EnqueuedAll(c, t, [l]) == Enqueued(c, EnqueuedAll(c, t, []), l);
  }

  lemma ShipEvent(c: Config, t: Track, w: World, l: Line) returns (t': Track)
    requires c.Valid() && c.parse(l) && t.mem.queue == [l]
    ensures t' == Flushed(c, t, w, ALL_WELL).0
    ensures t'.mem.queue == [] && t'.mem.offset == t.mem.offset && t'.led == t.led.(delivered := t.led.delivered + [l])
  {
    t' := Flushed(c, t, w, ALL_WELL).0;
    assert [l][..1] == [l];
    FilterOne(c.parse, l);
    assert Batch(c, t) == [l];
  }

  /** The next process reads `l` and its newline, and ships it. */
  lemma NextEventShips(c: Config, s: System, l: Line) returns (t': Track)
    requires c.Valid() && JustSaved(c, s) && ShortEvent(c, l)
    ensures s.proc.t.mem.offset <= |s.file|
    ensures var s' := Redone(c, s, l + [NEWLINE], [Read(|l| + 1), Flush(ALL_WELL)]); Drained(s') && s'.proc == Up(t')
    ensures t'.led == Ledger(s.proc.t.mem.offset, l + [NEWLINE], [l], [l], [], 0)
    ensures t'.mem.queue == []
  {
    hide Ok, Run, Absorbed, Flushed;
    var off, chunk := s.proc.t.mem.offset, l + [NEWLINE];
    var s1 := Restarted(c, s, chunk);
    var t1 := ReadEvent(c, s1.proc.t, l);
    assert s1.file[off..off + (|l| + 1)] == chunk;
    var s2 := Step(c, s1, Read(|l| + 1));
    t' := ShipEvent(c, t1, s2.world, l);
    assert [] + [l] == [l];
    RunTwo(c, s1, Read(|l| + 1), Flush(ALL_WELL));
  }

  lemma RunTwo(c: Config, s: System, a: Event, b: Event)
    ensures Run(c, s, [a, b]) == Step(c, Step(c, s, a), b)
  {
    hide Step;
    var s1 := Step(c, s, a);
    assert [a, b][1..] == [b] && [b][1..] == [];
    assert Run(c, s1, [b]) == Step(c, s1, b);
  }

  /** A restart inside a line ships what follows as a line of its own. */
  lemma UnsafeIfHeldBack(c: Config, s: System, l: Line)
    requires c.Valid() && JustSaved(c, s) && ShortEvent(c, l)
    requires s.proc.t.mem.queue == [] && s.proc.t.mem.partial != []
    ensures s.proc.t.mem.offset <= |s.file|
    ensures var s' := Redone(c, s, l + [NEWLINE], [Read(|l| + 1), Flush(ALL_WELL)]);
            Drained(s') && !Lossless(c, [s.proc.t, s'.proc.t]) && NothingDropped(s'.proc.t)
  {
    hide Ok, Run, Good, Tail;
    var t := s.proc.t;
    var t' := NextEventShips(c, s, l);
    LiveWellformed(c, s);
    OneLifeSettled(c, t);
    hide Wellformed;
    TwoLives(t, t');
    GoodCompleted(c, t.led.kept, l);
    hide Kept, Deliveries, Drops;
    var whole := t.mem.partial + l;
    assert multiset(Good(c, t.led.kept + t'.led.kept))[l] == multiset(Good(c, t.led.kept))[l] by {
      assert whole != l;
    }
    assert t.led.dropped + [] == t.led.dropped;
    assert multiset(t.led.delivered + [l])[l] == multiset(t.led.delivered)[l] + 1;
  }

  /** RESTART SAFETY, EXACTLY. Take a process that has just written the offset file. However
      the file goes on behind what it had read, the next process, once it has
      read all of it and emptied its queue, leaves no parseable line
      undelivered, doubled, garbled or out of order, but for those dropped for a
      limit, if and only if the first had nothing queued and nothing held back. */
  lemma RestartSafeExactly(c: Config, s: System)
    requires c.Valid() && JustSaved(c, s)
    requires exists l: Line :: ShortEvent(c, l)
    ensures s.proc.t.mem.offset <= |s.file|
    ensures (forall more: Bytes, es: seq<Event> :: Works(es) && Drained(Redone(c, s, more, es)) ==>
               Lossless(c, [s.proc.t, Redone(c, s, more, es).proc.t]))
            <==> Flat(s.proc.t)
  {
    hide Ok, Run, Lossless;
    var s0 := CutFile(c, s);
    if Flat(s.proc.t) {
      forall more: Bytes, es: seq<Event> | Works(es)
        ensures Drained(Redone(c, s, more, es)) ==> Lossless(c, [s.proc.t, Redone(c, s, more, es).proc.t])
      {
        SafeIfFlat(c, s, more, es);
      }
    } else if s.proc.t.mem.queue != [] {
      UnsafeIfQueued(c, s);
    } else {
      var l :| ShortEvent(c, l);
      UnsafeIfHeldBack(c, s, l);
    }
  }

  lemma RedoneFacts(c: Config, s: System, more: Bytes, es: seq<Event>) returns (s': System)
    requires c.Valid() && JustSaved(c, s) && Works(es)
    ensures s.proc.t.mem.offset <= |s.file| && s' == Redone(c, s, more, es)
    ensures s'.proc.Up? && s'.proc.t.led.base == s.proc.t.mem.offset && s'.file == s.file[..s.proc.t.mem.offset] + more
    ensures Wellformed(c, s'.proc.t) && ReadsFile(s'.proc.t, s'.file)
  {
    hide Step, Run, Ok, Wellformed, ReadsFile;
    var s1 := Restarted(c, s, more);
    WorkKeeps(c, s1, es);
    s' := Run(c, s1, es);
    LiveWellformed(c, s');
  }

  lemma CleanlyLossless(c: Config, t: Track, t': Track)
    requires NothingDropped(t) && NothingDropped(t') && t'.mem.queue == []
    ensures Lossless(c, [t, t']) <==> t.led.delivered + t'.led.delivered == Good(c, t.led.kept + t'.led.kept)
  {
    hide Good;
    TwoLives(t, t');
    var d := t.led.delivered + t'.led.delivered;
    assert d + [] == d;
    SubsequenceRefl(d);
  }

  lemma RestartDelivers(c: Config, s: System, more: Bytes, es: seq<Event>)
    requires c.Valid() && JustSaved(c, s) && Works(es) && NothingDropped(s.proc.t)
    ensures s.proc.t.led.base <= s.proc.t.mem.offset <= |s.file|
    ensures var s' := Redone(c, s, more, es);
            Drained(s') && NothingDropped(s'.proc.t) ==>
              && s.proc.t.led.base <= |s'.file|
              && (Lossless(c, [s.proc.t, s'.proc.t]) <==>
                    s.proc.t.led.delivered + s'.proc.t.led.delivered == Good(c, s'.file[s.proc.t.led.base..]))
  {
    hide Run, Ok, Wellformed, Lossless, Good;
    var s' := RedoneFacts(c, s, more, es);
    LiveWellformed(c, s);
    if Drained(s') && NothingDropped(s'.proc.t) {
      var t, t' := s.proc.t, s'.proc.t;
      CleanlyLossless(c, t, t');
      assert s'.file[t.mem.offset..|s'.file|] == s'.file[t.mem.offset..];
      assert s.file[t.led.base..t.mem.offset] == s'.file[t.led.base..t.mem.offset];
      assert s'.file[t.led.base..] == s'.file[t.led.base..t.mem.offset] + s'.file[t.mem.offset..];
    }
  }

  /** THE SAME WITHOUT DROPS. The sinks then have from the two processes exactly the parseable
      lines of the file, in order, if and only if the first left nothing behind. */
  lemma RestartDeliversExactly(c: Config, s: System)
    requires c.Valid() && JustSaved(c, s) && NothingDropped(s.proc.t)
    requires exists l: Line :: ShortEvent(c, l)
    ensures s.proc.t.led.base <= s.proc.t.mem.offset <= |s.file|
    ensures (forall more: Bytes, es: seq<Event> ::
               var s' := Redone(c, s, more, es);
               Works(es) && Drained(s') && NothingDropped(s'.proc.t) ==>
                 && s.proc.t.led.base <= |s'.file|
                 && s.proc.t.led.delivered + s'.proc.t.led.delivered == Good(c, s'.file[s.proc.t.led.base..]))
            <==> Flat(s.proc.t)
  {
    hide Ok, Run, Lossless, Good;
    RestartDelivers(c, s, [], []);
    forall more: Bytes, es: seq<Event> | Works(es)
      ensures var s' := Redone(c, s, more, es);
              Drained(s') && NothingDropped(s'.proc.t) ==>
                && s.proc.t.led.base <= |s'.file|
                && (Lossless(c, [s.proc.t, s'.proc.t]) <==>
                      s.proc.t.led.delivered + s'.proc.t.led.delivered == Good(c, s'.file[s.proc.t.led.base..]))
    {
      RestartDelivers(c, s, more, es);
    }
    if Flat(s.proc.t) {
      forall more: Bytes, es: seq<Event> | Works(es)
        ensures Redone(c, s, more, es).proc.Up? && Lossless(c, [s.proc.t, Redone(c, s, more, es).proc.t])
      {
        SafeIfFlat(c, s, more, es);
      }
    } else if s.proc.t.mem.queue != [] {
      UnsafeIfQueued(c, s);
    } else {
      var l :| ShortEvent(c, l);
      UnsafeIfHeldBack(c, s, l);
    }
  }

  lemma TwoLives(t: Track, t': Track)
    ensures Kept([t, t']) == t.led.kept + t'.led.kept
    ensures Deliveries([t, t']) == t.led.delivered + t'.led.delivered
    ensures Drops([t, t']) == t.led.dropped + t'.led.dropped
  {
    NoLives();
    OneMoreLife([], t);
    OneMoreLife([t], t');
    assert [] + [t] == [t] && [t] + [t'] == [t, t'];
  }

  /** The end of a line arrives after part of it has been read. */
  lemma LinesCompleted(kept: Bytes, rest: Line)
    requires NEWLINE !in rest
    ensures Lines(kept + (rest + [NEWLINE])) == Lines(kept) + [Tail(kept) + rest]
  {
    var l := Tail(kept) + rest;
    SplitAppend(kept, rest + [NEWLINE]);
    SplitNewlineFree(kept);
    assert Tail(kept) + (rest + [NEWLINE]) == l + [NEWLINE] + [];
    PeelLine(l, []);
  }

  lemma GoodCompleted(c: Config, kept: Bytes, rest: Line)
    requires NEWLINE !in rest
    ensures var l := Tail(kept) + rest;
            Good(c, kept + (rest + [NEWLINE])) == Good(c, kept) + (if l != [] && c.parse(l) then [l] else [])
  {
    var l := Tail(kept) + rest;
    LinesCompleted(kept, rest);
    FilterAppend(HasText, Lines(kept), [l]);
    FilterAppend(c.parse, NonEmpty(Lines(kept)), NonEmpty([l]));
    OneLine(c, l);
  }

  lemma OneLine(c: Config, l: Line)
    ensures Filter(c.parse, NonEmpty([l])) == if l != [] && c.parse(l) then [l] else []
  {
    FilterOne(HasText, l);
    FilterOne(c.parse, l);
  }

  const A: Line := [97]
  const B: Line := [98]
  const TWO_LINES: Bytes := [97, 10, 98, 10]

  ghost function OneAtATime(): Config {
    Config(HasText, 1, 4096, true, true, false)
  }

  lemma TwoLinesSplit()
    ensures Lines(TWO_LINES) == [A, B] && Tail(TWO_LINES) == []
    ensures Filter(HasText, [A, B]) == [A, B] == Good(OneAtATime(), TWO_LINES)
  {
    assert TWO_LINES == A + [NEWLINE] + (B + [NEWLINE] + []);
    PeelLine(A, B + [NEWLINE] + []);
    PeelLine(B, []);
    FilterAll(HasText, [A, B]);
  }

  const BOTH_READ: Track := Track(Mem(4, [], [A, B], 0, 0, 0), Ledger(0, TWO_LINES, [A, B], [], [], 0))

  lemma ReadTwoLines()
    ensures Absorbed(OneAtATime(), Boot(OneAtATime(), Absent, 4), TWO_LINES) == BOTH_READ
  {
    var c := OneAtATime();
    var t0 := Boot(c, Absent, 4);
    var t := Taken(t0, TWO_LINES);
    assert [] + TWO_LINES == TWO_LINES;
    TwoLinesSplit();
    AbsorbedTaken(c, t0, TWO_LINES);
    assert [A, B][..1] == [A] && [A][..0] == [] && [A] + [B] == [A, B];
    assert EnqueuedAll(c, t, [A]) == Enqueued(c, EnqueuedAll(c, t, []), A);
    assert EnqueuedAll(c, t, [A, B]) == Enqueued(c, EnqueuedAll(c, t, [A]), B);
  }

  lemma ShipOneLine()
    ensures var (t, w) := Flushed(OneAtATime(), BOTH_READ, World(Absent, [], []), ALL_WELL);
            t.mem.offset == 4 && t.mem.queue == [B] && w == World(At(4), [A], [A])
    ensures Persists(OneAtATime(), BOTH_READ, ALL_WELL)
  {
    assert [A, B][..1] == [A] && [A, B][1..] == [B];
    FilterOne(HasText, A);
    assert Batch(OneAtATime(), BOTH_READ) == [A];
  }

  /** A loss: two lines are read, a batch of one is shipped, the offset of both is
      persisted and the process dies. The next one starts behind the second
      line, which neither sink has; it was in the queue when the offset was written. */
  lemma QueuedLineLost()
    ensures var c := OneAtATime();
            var s := Run(c, Initial(TWO_LINES), [Start, Read(4), Flush(ALL_WELL), Crash, Start]);
            && Good(c, s.file) == [A, B]
            && s.world == World(At(4), [A], [A])
            && s.proc == Up(Boot(c, At(4), 4))
            && s.proc.t.mem.offset == |s.file|
            && |Lives(s)| == 1 && Lives(s)[0].mem.queue == [B]
  {
    var c := OneAtATime();
    TwoLinesSplit();
    hide Good, Run, Absorbed, Flushed;
    var s3 := BeforeCrash();
    var s4 := Step(c, s3, Crash);
    var s5 := Step(c, s4, Start);
    assert s4.proc == Down && s4.mine == s3.mine;
    assert s5 == Started(c, s4) && Lives(s5) == Lives(s3);
    RunFive(c, Initial(TWO_LINES), Start, Read(4), Flush(ALL_WELL), Crash, Start);
  }

  lemma BeforeCrash() returns (s: System)
    ensures var c := OneAtATime();
            s == Step(c, Step(c, Step(c, Initial(TWO_LINES), Start), Read(4)), Flush(ALL_WELL))
    ensures s.world == World(At(4), [A], [A]) && s.file == TWO_LINES
    ensures |Lives(s)| == 1 && Lives(s)[0].mem.queue == [B]
  {
    var s2 := AfterReading();
    ShipOneLine();
    s := Step(OneAtATime(), s2, Flush(ALL_WELL));
  }

  lemma AfterReading() returns (s: System)
    ensures s == Step(OneAtATime(), Step(OneAtATime(), Initial(TWO_LINES), Start), Read(4))
    ensures s.proc == Up(BOTH_READ) && s.world == World(Absent, [], [])
    ensures s.file == TWO_LINES && Lives(s) == s.past == []
  {
    ReadTwoLines();
    assert TWO_LINES[0..4] == TWO_LINES;
    var s1 := Step(OneAtATime(), Initial(TWO_LINES), Start);
    assert s1.proc == Up(Boot(OneAtATime(), Absent, 4));
    s := Step(OneAtATime(), s1, Read(4));
  }

  lemma RunFive(c: Config, s: System, a: Event, b: Event, d: Event, e: Event, f: Event)
    ensures Run(c, s, [a, b, d, e, f]) == Step(c, Step(c, Step(c, Step(c, Step(c, s, a), b), d), e), f)
  {
    var s1 := Step(c, s, a);
    var s2 := Step(c, s1, b);
    var s3 := Step(c, s2, d);
    var s4 := Step(c, s3, e);
    assert [a, b, d, e, f][1..] == [b, d, e, f];
    assert [b, d, e, f][1..] == [d, e, f];
    assert [d, e, f][1..] == [e, f];
    assert [e, f][1..] == [f];
    assert [f][1..] == [];
    assert Run(c, s4, [f]) == Step(c, s4, f);
    assert Run(c, s3, [e, f]) == Run(c, s4, [f]);
    assert Run(c, s2, [d, e, f]) == Run(c, s3, [e, f]);
  }
}
