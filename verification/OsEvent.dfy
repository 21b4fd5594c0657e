/** The OS event tail: a timestamp watermark with a bounded ring of recent ids.

Each poll sees a window of events, ships the fresh ones oldest first and, if
both the send and the save succeed, advances the saved state. The saved state
turns out to be a function of the log of what was shipped and saved
(`StateOf`); everything else follows from that.
*/
module OsEvent {
  import opened Basics

  datatype Entry = Entry(id: string, ts: int)

  datatype Slot = Nil | One(e: Entry)

  datatype State = State(lastTs: int, seenIds: seq<string>)

  const MAX_SEEN_IDS: nat := 200

  const NO_STATE := State(0, [])

  predicate IsFresh(st: State, slot: Slot) {
    slot.One? && slot.e.id !in st.seenIds && slot.e.ts >= st.lastTs
  }

  ghost function Fresh(st: State, window: seq<Slot>): seq<Entry> {
    if window == [] then []
    else
      var n := |window| - 1;
      Fresh(st, window[..n]) + (if IsFresh(st, window[n]) then [window[n].e] else [])
  }

  ghost predicate Sorted(es: seq<Entry>) {
    forall i, j :: 0 <= i < j < |es| ==> es[i].ts <= es[j].ts
  }

  ghost predicate SortedPermutation(es: seq<Entry>, of: seq<Entry>) {
    Sorted(es) && multiset(es) == multiset(of)
  }

  function Ids(es: seq<Entry>): (ids: seq<string>)
    ensures |ids| == |es|
    ensures forall i :: 0 <= i < |es| ==> ids[i] == es[i].id
  {
    if es == [] then [] else Ids(es[..|es| - 1]) + [es[|es| - 1].id]
  }

  function LastN<T>(xs: seq<T>, n: nat): seq<T> {
    if |xs| > n then xs[|xs| - n..] else xs
  }

  function MaxTs(es: seq<Entry>): (m: int)
    requires es != []
    ensures exists i :: 0 <= i < |es| && es[i].ts == m
    ensures forall i :: 0 <= i < |es| ==> es[i].ts <= m
  {
    if |es| == 1 then es[0].ts
    else
      var m := MaxTs(es[..|es| - 1]);
      if es[|es| - 1].ts > m then es[|es| - 1].ts else m
  }

  lemma NoIds()
    ensures Ids([]) == []
  {
  }

  lemma OneMoreEntry(es: seq<Entry>, i: nat)
    requires i < |es|
    ensures Ids(es[..i + 1]) == Ids(es[..i]) + [es[i].id]
    ensures MaxTs(es[..i + 1]) == if i == 0 || es[i].ts > MaxTs(es[..i]) then es[i].ts else MaxTs(es[..i])
  {
    assert es[..i + 1][..i] == es[..i];
  }

  /** The state after a successful send of `batch`. */
  ghost function Advanced(st: State, batch: seq<Entry>): State
    requires batch != []
  {
    State(MaxTs(batch), LastN(st.seenIds + Ids(batch), MAX_SEEN_IDS))
  }

  /** One tail and its state file. `hasPath` is whether a state path is configured. */
  class Tail {
    const hasPath: bool
    var disk: State

    constructor (hasPath: bool, disk: State)
      ensures this.hasPath == hasPath && this.disk == disk
    {
      this.hasPath := hasPath;
      this.disk := disk;
    }

    ghost function Loaded(): State
      reads this
    {
      if hasPath then disk else NO_STATE
    }

    /** `readOk`, `sendOk` and `saveOk` are what the reader, the uplink and the
        disk answer. `batch` is what was offered to the uplink. */
    method Poll(readOk: bool, window: seq<Slot>, sendOk: bool, saveOk: bool) returns (batch: seq<Entry>)
      modifies this
      ensures SortedPermutation(batch, if readOk then Fresh(old(Loaded()), window) else [])
      ensures Loaded() == if batch != [] && sendOk && saveOk && hasPath then Advanced(old(Loaded()), batch)
                          else old(Loaded())
    {
      batch := [];
      if !readOk || |window| == 0 {
        return;
      }
      var st := if hasPath then disk else NO_STATE;
      var unseen := Collect(st, window);
      if |unseen| == 0 {
        return;
      }
      batch := SortByTime(unseen);
      assert |batch| > 0 by {
        assert |multiset(batch)| == |batch|;
      }
      if !sendOk {
        return;
      }
      var last, ids := Summarize(st.seenIds, batch);
      if |ids| > MAX_SEEN_IDS {
        ids := ids[|ids| - MAX_SEEN_IDS..];
      }
      if saveOk && hasPath {
        disk := State(last, ids);
      }
    }

    method Collect(st: State, window: seq<Slot>) returns (unseen: seq<Entry>)
      ensures unseen == Fresh(st, window)
    {
      var seen: set<string> := {};
      for i := 0 to |st.seenIds|
        invariant forall id :: id in seen <==> id in st.seenIds[..i]
      {
        seen := seen + {st.seenIds[i]};
      }
      assert st.seenIds[..|st.seenIds|] == st.seenIds;
      unseen := [];
      for i := 0 to |window|
        invariant unseen == Fresh(st, window[..i])
      {
        assert window[..i + 1][..i] == window[..i];
        match window[i]
        case Nil =>
        case One(e) =>
          if e.id !in seen && !(e.ts < st.lastTs) {
            unseen := unseen + [e];
          }
      }
      assert window[..|window|] == window;
    }

    method Summarize(seenIds: seq<string>, batch: seq<Entry>) returns (last: int, ids: seq<string>)
      requires batch != []
      ensures last == MaxTs(batch) && ids == seenIds + Ids(batch)
    {
      hide MaxTs, Ids;
      last := batch[0].ts;
      ids := seenIds;
      assert seenIds + Ids(batch[..0]) == seenIds by {
        NoIds();
        assert batch[..0] == [];
      }
      for i := 0 to |batch|
        invariant ids == seenIds + Ids(batch[..i])
        invariant last == if i == 0 then batch[0].ts else MaxTs(batch[..i])
      {
        OneMoreEntry(batch, i);
        if batch[i].ts > last {
          last := batch[i].ts;
        }
        assert seenIds + Ids(batch[..i]) + [batch[i].id] == seenIds + (Ids(batch[..i]) + [batch[i].id]);
        ids := ids + [batch[i].id];
      }
      assert batch[..|batch|] == batch;
    }

    /** Stands for the library sort, of which only this contract is used. */
    method SortByTime(es: seq<Entry>) returns (out: seq<Entry>)
      ensures SortedPermutation(out, es)
    {
      out := [];
      for i := 0 to |es|
        invariant SortedPermutation(out, es[..i])
      {
        assert es[..i + 1] == es[..i] + [es[i]];
        out := InsertByTime(out, es[i]);
      }
      assert es[..|es|] == es;
    }

    method InsertByTime(es: seq<Entry>, e: Entry) returns (out: seq<Entry>)
      requires Sorted(es)
      ensures Sorted(out) && multiset(out) == multiset(es) + multiset{e}
    {
      var k := |es|;
      while k > 0 && es[k - 1].ts > e.ts
        invariant 0 <= k <= |es|
        invariant forall j :: k <= j < |es| ==> e.ts < es[j].ts
      {
        k := k - 1;
      }
      InsertSorted(es, e, k);
      InsertMultiset(es, e, k);
      out := es[..k] + [e] + es[k..];
    }
  }

  lemma InsertSorted(es: seq<Entry>, e: Entry, k: nat)
    requires Sorted(es) && k <= |es|
    requires k > 0 ==> es[k - 1].ts <= e.ts
    requires k < |es| ==> e.ts <= es[k].ts
    ensures Sorted(es[..k] + [e] + es[k..])
  {
    var out := es[..k] + [e] + es[k..];
    forall i, j | 0 <= i < j < |out|
      ensures out[i].ts <= out[j].ts
    {
      assert i < k ==> out[i] == es[i] && es[i].ts <= es[k - 1].ts;
      assert j > k ==> out[j] == es[j - 1] && es[k].ts <= es[j - 1].ts;
      assert i > k ==> out[i] == es[i - 1];
    }
  }

  lemma InsertMultiset<T>(es: seq<T>, e: T, k: nat)
    requires k <= |es|
    ensures multiset(es[..k] + [e] + es[k..]) == multiset(es) + multiset{e}
  {
    assert es == es[..k] + es[k..];
    assert multiset(es) == multiset(es[..k]) + multiset(es[k..]);
  }

  // ---- runs of polls ----

  /** `batch` is the order in which the library sort happened to put the fresh entries. */
  datatype Poll =
    | ReadFailed
    | Polled(window: seq<Slot>, batch: seq<Entry>, sendOk: bool, saveOk: bool)

  /** `shipped` is all that was sent; `saved` the part whose state was saved. */
  datatype System = System(disk: State, shipped: seq<Entry>, saved: seq<Entry>)

  const START := System(NO_STATE, [], [])

  ghost predicate Legal(s: System, p: Poll) {
    p.Polled? ==> SortedPermutation(p.batch, Fresh(s.disk, p.window))
  }

  ghost function Step(s: System, p: Poll): System {
    if p.ReadFailed? || p.batch == [] || !p.sendOk then s
    else if !p.saveOk then s.(shipped := s.shipped + p.batch)
    else System(Advanced(s.disk, p.batch), s.shipped + p.batch, s.saved + p.batch)
  }

  ghost predicate LegalRun(s: System, ps: seq<Poll>)
    decreases |ps|
  {
    ps == [] || (Legal(s, ps[0]) && LegalRun(Step(s, ps[0]), ps[1..]))
  }

  ghost function Run(s: System, ps: seq<Poll>): System
    decreases |ps|
  {
    if ps == [] then s else Run(Step(s, ps[0]), ps[1..])
  }

  /** The saved state, read off the log. */
  ghost function StateOf(log: seq<Entry>): State {
    State(if log == [] then 0 else log[|log| - 1].ts, LastN(Ids(log), MAX_SEEN_IDS))
  }

  ghost predicate Ok(s: System) {
    Sorted(s.saved) && s.disk == StateOf(s.saved)
  }

  lemma {:induction false} FreshIff(st: State, window: seq<Slot>, e: Entry)
    ensures e in Fresh(st, window) <==> One(e) in window && IsFresh(st, One(e))
  {
    if window != [] {
      var n := |window| - 1;
      FreshIff(st, window[..n], e);
      assert window == window[..n] + [window[n]];
    }
  }

  lemma BatchIff(s: System, p: Poll, e: Entry)
    requires p.Polled? && Legal(s, p)
    ensures e in p.batch <==> One(e) in p.window && IsFresh(s.disk, One(e))
  {
    FreshIff(s.disk, p.window, e);
    assert e in p.batch <==> e in multiset(p.batch);
    assert e in Fresh(s.disk, p.window) <==> e in multiset(Fresh(s.disk, p.window));
  }

  lemma BatchAboveWatermark(s: System, p: Poll)
    requires p.Polled? && Legal(s, p)
    ensures forall i :: 0 <= i < |p.batch| ==> p.batch[i].ts >= s.disk.lastTs
  {
    forall i | 0 <= i < |p.batch|
      ensures p.batch[i].ts >= s.disk.lastTs
    {
      BatchIff(s, p, p.batch[i]);
    }
  }

  lemma {:induction false} IdsAppend(a: seq<Entry>, b: seq<Entry>)
    ensures Ids(a + b) == Ids(a) + Ids(b)
  {
  }

  lemma RingAppend<T>(xs: seq<T>, ys: seq<T>, n: nat)
    ensures LastN(LastN(xs, n) + ys, n) == LastN(xs + ys, n)
  {
  }

  lemma RingStep(log: seq<Entry>, batch: seq<Entry>)
    ensures LastN(StateOf(log).seenIds + Ids(batch), MAX_SEEN_IDS) == StateOf(log + batch).seenIds
  {
    IdsAppend(log, batch);
    RingAppend(Ids(log), Ids(batch), MAX_SEEN_IDS);
  }

  lemma MaxSorted(batch: seq<Entry>)
    requires Sorted(batch) && batch != []
    ensures MaxTs(batch) == batch[|batch| - 1].ts
  {
  }

  lemma SortedAppend(log: seq<Entry>, batch: seq<Entry>)
    requires Sorted(log) && Sorted(batch)
    requires log != [] && batch != [] ==> log[|log| - 1].ts <= batch[0].ts
    ensures Sorted(log + batch)
  {
    var all, n := log + batch, |log|;
    forall i, j | 0 <= i < j < |all|
      ensures all[i].ts <= all[j].ts
    {
      if i < n <= j {
        assert log[i].ts <= log[n - 1].ts && batch[0].ts <= batch[j - n].ts;
      }
    }
  }

  lemma StepOk(s: System, p: Poll)
    requires Ok(s) && Legal(s, p)
    ensures Ok(Step(s, p))
  {
    if p.Polled? && p.batch != [] {
      BatchAboveWatermark(s, p);
      RingStep(s.saved, p.batch);
      SortedAppend(s.saved, p.batch);
      MaxSorted(p.batch);
    }
  }

  /** THE STATE IS A FUNCTION OF THE LOG. In every run, with reads, sends and saves
      failing at will, the log of saved batches is sorted by time stamp, the
      watermark is its last time stamp and the ring its last 200 ids. */
  lemma {:induction false} RunOk(s: System, ps: seq<Poll>)
    requires Ok(s) && LegalRun(s, ps)
    ensures Ok(Run(s, ps))
    decreases |ps|
  {
    if ps != [] {
      StepOk(s, ps[0]);
      RunOk(Step(s, ps[0]), ps[1..]);
    }
  }

  /** The saved state, entry by entry: the ring holds the ids of the last 200 entries of the
      log, oldest first, and the watermark is the time stamp of the last. */
  lemma StateRead(log: seq<Entry>)
    ensures var st := StateOf(log);
            && st.lastTs == (if log == [] then 0 else log[|log| - 1].ts)
            && |st.seenIds| == (if |log| < 200 then |log| else 200)
            && forall k :: 0 <= k < |st.seenIds| ==> st.seenIds[k] == log[|log| - |st.seenIds| + k].id
  {
    var ids := Ids(log);
  }

  /** If no save ever fails, the saved log is all that was shipped. */
  lemma {:induction false} AllSaved(s: System, ps: seq<Poll>)
    requires s.shipped == s.saved
    requires forall k :: 0 <= k < |ps| ==> ps[k].Polled? ==> ps[k].saveOk
    ensures Run(s, ps).shipped == Run(s, ps).saved
    decreases |ps|
  {
    if ps != [] {
      AllSaved(Step(s, ps[0]), ps[1..]);
    }
  }

  /** The watermark never goes back, and a failed send (or read) changes nothing. */
  lemma {:induction false} WatermarkMonotone(s: System, ps: seq<Poll>)
    requires LegalRun(s, ps)
    ensures Run(s, ps).disk.lastTs >= s.disk.lastTs
    ensures (forall k :: 0 <= k < |ps| ==> ps[k].Polled? ==> !ps[k].sendOk) ==> Run(s, ps) == s
    decreases |ps|
  {
    if ps != [] {
      if ps[0].Polled? {
        BatchAboveWatermark(s, ps[0]);
      }
      WatermarkMonotone(Step(s, ps[0]), ps[1..]);
    }
  }

  /** COVERAGE. After a successful poll every entry of the window has been shipped,
      or has the id of one shipped before, or is strictly older than one shipped
      before (or carries a negative time stamp, which no tail ever ships first). */
  lemma Coverage(s: System, p: Poll, e: Entry)
    requires Ok(s) && p.Polled? && Legal(s, p) && p.sendOk && One(e) in p.window
    ensures || e in p.batch
            || e.id in Ids(s.saved)
            || (exists k :: 0 <= k < |s.saved| && e.ts < s.saved[k].ts)
            || e.ts < 0
    ensures e in p.batch ==> e in Step(s, p).shipped
  {
    hide SortedPermutation, Fresh, Advanced, Sorted;
    BatchIff(s, p, e);
    if e.id in s.disk.seenIds {
      var all := Ids(s.saved);
      var i :| 0 <= i < |s.disk.seenIds| && s.disk.seenIds[i] == e.id;
      assert all[|all| - |s.disk.seenIds| + i] == e.id;
    } else if s.saved != [] && e.ts < s.disk.lastTs {
      assert e.ts < s.saved[|s.saved| - 1].ts;
    }
  }

  // ---- duplicates ----

  /** No 201 entries of a sorted log share a time stamp. */
  ghost predicate Spread(log: seq<Entry>) {
    forall i, j :: 0 <= i && i + 200 == j < |log| ==> log[i].ts < log[j].ts
  }

  /** A window does not show the same event in two fresh slots. */
  ghost predicate DistinctFresh(st: State, window: seq<Slot>) {
    forall i, j :: 0 <= i < j < |window| && IsFresh(st, window[i]) && IsFresh(st, window[j]) ==>
      window[i].e != window[j].e
  }

  /** The ring holds the ids of the last 200 entries. */
  lemma RingHolds(log: seq<Entry>, i: nat)
    requires i < |log|
    ensures i + MAX_SEEN_IDS >= |log| ==> log[i].id in StateOf(log).seenIds
  {
    var ids := Ids(log);
    var ring := LastN(ids, MAX_SEEN_IDS);
    if i + MAX_SEEN_IDS >= |log| {
      assert ring[i - (|log| - |ring|)] == ids[i];
    }
  }

  /** RE-SHIPPING, EXACTLY. Some entry of the log would be shipped again if a window
      showed it if and only if more than 200 entries carry the watermark. */
  lemma ReshipExactly(s: System)
    requires Ok(s) && NoRepeats(s.saved)
    ensures (exists e :: e in s.saved && IsFresh(s.disk, One(e)))
            <==> (|s.saved| > 200 && s.saved[|s.saved| - 201].ts == s.disk.lastTs)
  {
    var log, ids, n := s.saved, Ids(s.saved), |s.saved|;
    if e :| e in log && IsFresh(s.disk, One(e)) {
      var i :| 0 <= i < n && log[i] == e;
      RingHolds(log, i);
      assert log[i].ts <= log[n - MAX_SEEN_IDS - 1].ts <= log[n - 1].ts;
    }
    if n > MAX_SEEN_IDS && log[n - MAX_SEEN_IDS - 1].ts == s.disk.lastTs {
      var k := n - MAX_SEEN_IDS - 1;
      forall j | 0 <= j < MAX_SEEN_IDS
        ensures s.disk.seenIds[j] != log[k].id
      {
        assert s.disk.seenIds[j] == ids[k + 1 + j] == log[k + 1 + j].id;
        assert log[k].ts <= log[k + 1 + j].ts <= log[n - 1].ts;
        assert log[k] != log[k + 1 + j];
      }
      assert IsFresh(s.disk, One(log[k]));
      assert log[k] in log;
    }
  }

  /** REPEATS WITHIN A WINDOW, EXACTLY. What is taken from a window has an entry twice if and
      only if two of its fresh slots show the same one. */
  lemma {:induction false} RepeatsExactly(st: State, window: seq<Slot>)
    ensures NoRepeats(Fresh(st, window)) <==> DistinctFresh(st, window)
  {
    if window != [] {
      var n := |window| - 1;
      var init, last := window[..n], window[n];
      RepeatsExactly(st, init);
      if IsFresh(st, last) {
        FreshIff(st, init, last.e);
        NoRepeatsLast(Fresh(st, init), last.e);
        DistinctFreshLast(st, init, last);
      } else {
        assert Fresh(st, window) == Fresh(st, init);
      }
    }
  }

  lemma NoRepeatsLast<T>(xs: seq<T>, x: T)
    ensures NoRepeats(xs + [x]) <==> NoRepeats(xs) && x !in xs
  {
    var all := xs + [x];
    if NoRepeats(all) {
      forall i, j | 0 <= i < j < |xs|
        ensures xs[i] != xs[j]
      {
        assert all[i] == xs[i] && all[j] == xs[j];
      }
      forall i | 0 <= i < |xs|
        ensures xs[i] != x
      {
        assert all[i] == xs[i] && all[|xs|] == x;
      }
    }
  }

  lemma DistinctFreshLast(st: State, init: seq<Slot>, last: Slot)
    requires IsFresh(st, last)
    ensures DistinctFresh(st, init + [last]) <==> DistinctFresh(st, init) && last !in init
  {
    var all := init + [last];
    if DistinctFresh(st, all) {
      forall i, j | 0 <= i < j < |init| && IsFresh(st, init[i]) && IsFresh(st, init[j])
        ensures init[i].e != init[j].e
      {
        assert all[i] == init[i] && all[j] == init[j];
      }
      forall i | 0 <= i < |init|
        ensures init[i] != last
      {
        assert all[i] == init[i] && all[|init|] == last;
      }
    }
  }

  lemma RepeatMultiset<T>(xs: seq<T>, i: nat, j: nat)
    requires i < j < |xs| && xs[i] == xs[j]
    ensures multiset(xs)[xs[i]] >= 2
  {
    assert xs == xs[..j] + [xs[j]] + xs[j + 1..];
    assert xs[..j][i] in multiset(xs[..j]);
  }

  lemma {:induction false} NoRepeatsMultiset<T>(xs: seq<T>, x: T)
    requires NoRepeats(xs)
    ensures multiset(xs)[x] <= 1
  {
    if xs != [] {
      var n := |xs| - 1;
      assert xs == xs[..n] + [xs[n]];
      NoRepeatsMultiset(xs[..n], x);
      if x == xs[n] {
        assert x !in xs[..n];
      }
    }
  }

  lemma PermutedNoRepeats<T>(a: seq<T>, b: seq<T>)
    requires multiset(a) == multiset(b) && NoRepeats(b)
    ensures NoRepeats(a)
  {
    forall i, j | 0 <= i < j < |a|
      ensures a[i] != a[j]
    {
      if a[i] == a[j] {
        RepeatMultiset(a, i, j);
        NoRepeatsMultiset(b, a[i]);
        assert false;
      }
    }
  }

  lemma BatchRepeatsExactly(s: System, p: Poll)
    requires p.Polled? && Legal(s, p)
    ensures NoRepeats(p.batch) <==> DistinctFresh(s.disk, p.window)
  {
    RepeatsExactly(s.disk, p.window);
    if NoRepeats(p.batch) {
      PermutedNoRepeats(Fresh(s.disk, p.window), p.batch);
    }
    if NoRepeats(Fresh(s.disk, p.window)) {
      PermutedNoRepeats(p.batch, Fresh(s.disk, p.window));
    }
  }

  /** If this poll is sent and saved, its window shows no event in two fresh slots. */
  ghost predicate DistinctPoll(s: System, p: Poll) {
    p.Polled? && p.sendOk && p.saveOk ==> DistinctFresh(s.disk, p.window)
  }

  ghost predicate DistinctRun(s: System, ps: seq<Poll>)
    decreases |ps|
  {
    ps == [] || (DistinctPoll(s, ps[0]) && DistinctRun(Step(s, ps[0]), ps[1..]))
  }

  lemma NoRepeatsAppend<T>(a: seq<T>, b: seq<T>)
    requires NoRepeats(a) && forall i, j :: 0 <= i < |a| && 0 <= j < |b| ==> a[i] != b[j]
    ensures NoRepeats(a + b) <==> NoRepeats(b)
  {
    if NoRepeats(a + b) {
      forall i, j | 0 <= i < j < |b|
        ensures b[i] != b[j]
      {
        assert (a + b)[|a| + i] == b[i] && (a + b)[|a| + j] == b[j];
      }
    }
  }

  lemma StepRepeatsExactly(s: System, p: Poll)
    requires Ok(s) && NoRepeats(s.saved) && Spread(s.saved) && Legal(s, p)
    ensures NoRepeats(Step(s, p).saved) <==> DistinctPoll(s, p)
  {
    if p.Polled? && p.sendOk && p.saveOk {
      BatchRepeatsExactly(s, p);
      if p.batch != [] {
        ReshipExactly(s);
        forall i, j | 0 <= i < |s.saved| && 0 <= j < |p.batch|
          ensures s.saved[i] != p.batch[j]
        {
          BatchIff(s, p, p.batch[j]);
          assert s.saved[i] in s.saved;
        }
        NoRepeatsAppend(s.saved, p.batch);
      }
    }
  }

  lemma {:induction false} SavedGrows(s: System, ps: seq<Poll>)
    ensures s.saved <= Run(s, ps).saved
    decreases |ps|
  {
    if ps != [] {
      SavedGrows(Step(s, ps[0]), ps[1..]);
    }
  }

  /** NO DUPLICATES, EXACTLY. In every run in whose saved log no 201 entries share a time
      stamp, no entry is in that log twice if and only if no saved poll was shown an
      event in two fresh slots of its window. */
  lemma {:induction false} NoDuplicates(s: System, ps: seq<Poll>)
    requires Ok(s) && NoRepeats(s.saved) && LegalRun(s, ps)
    requires Spread(Run(s, ps).saved)
    ensures NoRepeats(Run(s, ps).saved) <==> DistinctRun(s, ps)
    decreases |ps|
  {
    hide Ok, Spread, NoRepeats, DistinctPoll, Step;
    if ps != [] {
      var s' := Step(s, ps[0]);
      SavedGrows(s, ps);
      SavedGrows(s', ps[1..]);
      SpreadPrefix(s.saved, Run(s, ps).saved);
      StepOk(s, ps[0]);
      StepRepeatsExactly(s, ps[0]);
      if DistinctPoll(s, ps[0]) {
        NoDuplicates(s', ps[1..]);
      } else {
        if NoRepeats(Run(s, ps).saved) {
          RepeatsStay(s'.saved, Run(s, ps).saved);
        }
      }
    }
  }

  lemma SpreadPrefix(a: seq<Entry>, b: seq<Entry>)
    requires a <= b && Spread(b)
    ensures Spread(a)
  {
    assert forall i :: 0 <= i < |a| ==> a[i] == b[i];
  }

  lemma RepeatsStay<T>(a: seq<T>, b: seq<T>)
    requires a <= b && NoRepeats(b)
    ensures NoRepeats(a)
  {
    assert forall i :: 0 <= i < |a| ==> a[i] == b[i];
  }

  /** From the start, with every save succeeding, that is everything shipped. */
  lemma ShippedOnce(ps: seq<Poll>)
    requires LegalRun(START, ps)
    requires forall k :: 0 <= k < |ps| ==> ps[k].Polled? ==> ps[k].saveOk
    ensures var s := Run(START, ps);
            && Sorted(s.shipped) && s.disk == StateOf(s.shipped)
            && s.disk.lastTs == (if s.shipped == [] then 0 else s.shipped[|s.shipped| - 1].ts)
            && (Spread(s.shipped) ==> (NoRepeats(s.shipped) <==> DistinctRun(START, ps)))
  {
    RunOk(START, ps);
    AllSaved(START, ps);
    if Spread(Run(START, ps).saved) {
      NoDuplicates(START, ps);
    }
  }

  /** A window that shows one event twice has it shipped twice. */
  lemma RepeatedInWindow(e: Entry)
    requires e.ts >= 0
    ensures Fresh(NO_STATE, [One(e), One(e)]) == [e, e]
  {
    var w := [One(e), One(e)];
    assert w[..1] == [One(e)] && w[..1][..0] == [];
    assert Fresh(NO_STATE, w[..1]) == [e];
  }
}
