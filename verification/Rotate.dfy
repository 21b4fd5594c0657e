/** Leaf rotation: when are refreshes attempted, and is the leaf ever expired?

Times are nanoseconds. A sleep may end late by up to a given bound, a refresh
call may take up to its 15 s limit. `AttemptsExactly` says how many attempts a
rotation threshold buys; `NeverExpired` is what follows for a whole run.
*/
module Rotate {
  import opened Basics
  import opened Backoff

  const MILLISECOND: int := 1_000_000
  const SECOND: int := 1_000_000_000
  const MINUTE: int := 60 * SECOND
  /** The time limit of one refresh call. */
  const RPC_LIMIT: int := 15 * SECOND

  datatype Config = Config(rotateFrac: real, maxLead: int, minInterval: int, maxBackoff: int, rotateAfter: int) {
    predicate Valid() {
      0.0 < rotateFrac < 1.0 && maxLead > 0 && minInterval > 0 && maxBackoff > 0
    }

    function WithDefaults(): (c: Config)
      ensures c.Valid()
      ensures Valid() ==> c == this
    {
      Config(if rotateFrac <= 0.0 || rotateFrac >= 1.0 then 0.25 else rotateFrac,
             if maxLead <= 0 then 30 * MINUTE else maxLead,
             if minInterval <= 0 then MINUTE else minInterval,
             if maxBackoff <= 0 then 5 * MINUTE else maxBackoff,
             rotateAfter)
    }

    /** How much life must remain when a rotation fires. */
    function Threshold(lifetime: int): int {
      var thr := (lifetime as real * rotateFrac).Floor;
      var capped := if thr > maxLead then maxLead else thr;
      if capped < minInterval && minInterval > 0 then minInterval else capped
    }
  }

  /** The threshold leaves room for a retry and respects the lead unless that is
      shorter than the retry interval. */
  lemma ThresholdBounds(c: Config, lifetime: int)
    requires c.Valid()
    ensures c.minInterval <= c.Threshold(lifetime) <= if c.maxLead > c.minInterval then c.maxLead else c.minInterval
  {
  }

  /** THE THRESHOLD, EXACTLY. So much life remains when a rotation fires: the fraction of the
      lifetime, but no more than the lead, but no less than the retry interval. */
  lemma ThresholdExactly(c: Config, lifetime: int, x: int)
    requires c.Valid()
    ensures x <= c.Threshold(lifetime) <==>
            x <= c.minInterval || (x <= c.maxLead && x as real <= lifetime as real * c.rotateFrac)
  {
    FloorExactly(lifetime as real * c.rotateFrac, x);
  }

  lemma FloorExactly(r: real, x: int)
    ensures x <= r.Floor <==> x as real <= r
  {
  }

  datatype Leaf = Unparseable | Leaf(notBefore: int, notAfter: int)

  /** What one refresh call brings back. */
  datatype Reply = RpcError | Incomplete | BadCert | Issued(notBefore: int, notAfter: int)

  /** One turn of the loop as the world makes it: how late the two sleeps end, how
      long the call takes and what it answers. */
  datatype Turn = Turn(lateWait: nat, rpc: nat, reply: Reply, lateBackoff: nat)

  datatype State = State(now: int, leaf: Leaf, backoff: int, first: bool, start: int)

  function SleepTime(d: int): (t: int)
    ensures t > 0
  {
    if d <= 0 then MILLISECOND else d
  }

  /** When the loop would refresh, counted from now. */
  function Wait(c: Config, s: State): int
    requires s.leaf.Leaf?
  {
    var thr := c.Threshold(s.leaf.notAfter - s.leaf.notBefore);
    var remaining := s.leaf.notAfter - s.now;
    var wait := if remaining - thr < 0 then 0 else remaining - thr;
    if s.first && c.rotateAfter > 0 && c.rotateAfter - (s.now - s.start) < wait
    then c.rotateAfter - (s.now - s.start) else wait
  }

  /** When this turn's refresh call starts. */
  function AttemptAt(c: Config, s: State, t: Turn): int
    requires s.leaf.Leaf?
  {
    s.now + SleepTime(Wait(c, s)) + t.lateWait
  }

  function Next(c: Config, s: State, t: Turn): State {
    if s.leaf.Unparseable? then s.(now := s.now + SleepTime(c.minInterval) + t.lateWait)
    else
      var s1 := s.(now := AttemptAt(c, s, t) + t.rpc, first := s.first && c.rotateAfter <= 0);
      if t.reply.Issued? then s1.(leaf := Leaf(t.reply.notBefore, t.reply.notAfter), backoff := c.minInterval)
      else s1.(now := s1.now + SleepTime(s.backoff) + t.lateBackoff, backoff := Doubled(s.backoff, c.maxBackoff))
  }

  function Iterate(c: Config, s: State, ts: seq<Turn>): State
    decreases |ts|
  {
    if ts == [] then s else Iterate(c, Next(c, s, ts[0]), ts[1..])
  }

  /** The rotator: a loop that sleeps, refreshes and swaps the stored leaf. */
  class Rotator {
    const cfg: Config
    var leaf: Leaf
    var now: int
    var start: int
    var backoff: int
    var first: bool

    constructor (cfg: Config, leaf: Leaf, now: int)
      ensures this.cfg == cfg.WithDefaults()
      ensures View() == State(now, leaf, this.cfg.minInterval, true, now)
      ensures this.cfg.rotateFrac == if 0.0 < cfg.rotateFrac < 1.0 then cfg.rotateFrac else 0.25
      ensures this.cfg.maxLead == if cfg.maxLead > 0 then cfg.maxLead else 1_800 * SECOND
      ensures this.cfg.minInterval == if cfg.minInterval > 0 then cfg.minInterval else 60 * SECOND
      ensures this.cfg.maxBackoff == if cfg.maxBackoff > 0 then cfg.maxBackoff else 300 * SECOND
      ensures this.cfg.rotateAfter == cfg.rotateAfter
    {
      this.cfg := cfg.WithDefaults();
      this.leaf := leaf;
      this.now, start, first := now, now, true;
      backoff := cfg.WithDefaults().minInterval;
    }

    ghost function View(): State
      reads this
    {
      State(now, leaf, backoff, first, start)
    }

    method Sleep(d: int, late: nat)
      modifies this`now
      ensures now == old(now) + SleepTime(d) + late
    {
      now := now + (if d <= 0 then MILLISECOND else d) + late;
    }

    /** One refresh round trip; the leaf is swapped only for a parseable one. */
    method Refresh(t: Turn) returns (ok: bool)
      modifies this`now, this`leaf
      ensures now == old(now) + t.rpc
      ensures ok == t.reply.Issued?
      ensures leaf == if ok then Leaf(t.reply.notBefore, t.reply.notAfter) else old(leaf)
    {
      now := now + t.rpc;
      match t.reply
      case RpcError => return false;
      case Incomplete => return false;
      case BadCert => return false;
      case Issued(notBefore, notAfter) =>
        leaf := Leaf(notBefore, notAfter);
        return true;
    }

    method Run(ts: seq<Turn>)
      modifies this
      ensures View() == Iterate(cfg, old(View()), ts)
    {
      var i := 0;
      while i < |ts|
        invariant 0 <= i <= |ts|
        invariant Iterate(cfg, View(), ts[i..]) == Iterate(cfg, old(View()), ts)
      {
        var t := ts[i];
        ghost var before := View();
        assert ts[i..][0] == t && ts[i..][1..] == ts[i + 1..];
        i := i + 1;
        if leaf.Unparseable? {
          Sleep(cfg.minInterval, t.lateWait);
          assert View() == Next(cfg, before, t);
          continue;
        }
        var thr := cfg.Threshold(leaf.notAfter - leaf.notBefore);
        var wait := leaf.notAfter - now - thr;
        if wait < 0 {
          wait := 0;
        }
        if first && cfg.rotateAfter > 0 {
          var forced := cfg.rotateAfter - (now - start);
          if forced < wait {
            wait := forced;
          }
          first := false;
        }
        Sleep(wait, t.lateWait);
        var ok := Refresh(t);
        if !ok {
          Sleep(backoff, t.lateBackoff);
          backoff := backoff * 2;
          if backoff > cfg.maxBackoff {
            backoff := cfg.maxBackoff;
          }
          assert View() == Next(cfg, before, t);
          continue;
        }
        backoff := cfg.minInterval;
        assert View() == Next(cfg, before, t);
      }
    }
  }

  /** Turns whose delays stay within the call limit and the lateness bound. */
  predicate Timely(t: Turn, late: nat) {
    t.lateWait <= late && t.lateBackoff <= late && t.rpc <= 15_000_000_000
  }

  /** The longest that k failed attempts can push back the next one. */
  function Spent(c: Config, late: nat, k: nat): int {
    if k == 0 then MILLISECOND + late
    else Spent(c, late, k - 1) + RPC_LIMIT + SleepTime(Closed(c.minInterval, c.maxBackoff, k - 1)) + late
         + MILLISECOND + late
  }

  lemma {:induction false} SpentGrows(c: Config, late: nat, j: nat, k: nat)
    requires j <= k
    ensures 0 < Spent(c, late, j) <= Spent(c, late, k)
    decreases k
  {
    if j < k {
      SpentGrows(c, late, j, k - 1);
    } else if k > 0 {
      SpentGrows(c, late, k - 1, k - 1);
    }
  }

  /** The instant at which a leaf's rotation window opens. */
  function Window(c: Config, leaf: Leaf): int
    requires leaf.Leaf?
  {
    leaf.notAfter - c.Threshold(leaf.notAfter - leaf.notBefore)
  }

  function Max(a: int, b: int): int {
    if a < b then b else a
  }

  /** WHEN A REFRESH STARTS. At the opening of the window, or at once if that has passed; the
      first one of a life, if so configured, at a fixed time after the start if that
      comes earlier, and no later one. "At once" is a millisecond. */
  lemma AttemptInstant(c: Config, s: State, t: Turn)
    requires c.Valid() && s.leaf.Leaf?
    ensures var regular := Max(s.now, Window(c, s.leaf));
            var due := if s.first && c.rotateAfter > 0 then Min(regular, s.start + c.rotateAfter) else regular;
            AttemptAt(c, s, t) == (if due > s.now then due else s.now + 1_000_000) + t.lateWait
    ensures c.rotateAfter > 0 ==> !Next(c, s, t).first
    ensures Next(c, s, t).start == s.start
  {
  }

  /** After each turn: a leaf that was issued is the stored one and the back-off begins anew;
      a failure leaves the leaf, waits for the back-off and doubles it up to its cap;
      without a readable leaf nothing is asked for. */
  lemma TurnExactly(c: Config, s: State, t: Turn)
    requires c.Valid() && s.backoff > 0
    ensures var s' := Next(c, s, t);
            if s.leaf.Unparseable? then s' == s.(now := s.now + c.minInterval + t.lateWait)
            else if t.reply.Issued? then
              && s'.leaf == Leaf(t.reply.notBefore, t.reply.notAfter) && s'.backoff == c.minInterval
              && s'.now == AttemptAt(c, s, t) + t.rpc
            else
              && s'.leaf == s.leaf && s'.backoff == Min(2 * s.backoff, c.maxBackoff)
              && s'.now == AttemptAt(c, s, t) + t.rpc + s.backoff + t.lateBackoff
  {
  }

  /** j attempts have failed since the current leaf's window opened, at most. */
  ghost predicate InWindow(c: Config, late: nat, s: State, j: nat) {
    && s.leaf.Leaf?
    && s.backoff == Closed(c.minInterval, c.maxBackoff, j)
    && (j == 0 ==> s.now <= Window(c, s.leaf))
    && (j > 0 ==> Window(c, s.leaf) <= s.now <= Window(c, s.leaf) + Spent(c, late, j) - MILLISECOND - late)
  }

  /** The j+1st attempt starts within the time that j failures can take. */
  lemma AttemptInTime(c: Config, late: nat, s: State, j: nat, t: Turn)
    requires c.Valid() && c.rotateAfter <= 0 && InWindow(c, late, s, j) && Timely(t, late)
    ensures Window(c, s.leaf) <= AttemptAt(c, s, t) <= Window(c, s.leaf) + Spent(c, late, j)
    ensures !t.reply.Issued? ==> InWindow(c, late, Next(c, s, t), j + 1) && Next(c, s, t).leaf == s.leaf
  {
    DoubledIsClosed(c.minInterval, c.maxBackoff, j);
  }

  /** BACK-OFF. k failures in a row leave min(Min * 2^k, Max) and k windows' worth
      of delay behind, whatever the delays were. */
  lemma {:induction false} FailureRun(c: Config, late: nat, s: State, j: nat, ts: seq<Turn>)
    requires c.Valid() && c.rotateAfter <= 0 && InWindow(c, late, s, j)
    requires forall i :: 0 <= i < |ts| ==> Timely(ts[i], late) && !ts[i].reply.Issued?
    ensures InWindow(c, late, Iterate(c, s, ts), j + |ts|)
    ensures Iterate(c, s, ts).leaf == s.leaf
    ensures Iterate(c, s, ts).backoff == Closed(c.minInterval, c.maxBackoff, j + |ts|)
    decreases |ts|
  {
    if ts != [] {
      AttemptInTime(c, late, s, j, ts[0]);
      FailureRun(c, late, Next(c, s, ts[0]), j + 1, ts[1..]);
    }
  }

  function Slowest(late: nat): Turn {
    Turn(late, RPC_LIMIT, RpcError, late)
  }

  function SlowRun(late: nat, k: nat): (ts: seq<Turn>)
    ensures |ts| == k
    ensures forall i :: 0 <= i < k ==> ts[i] == Slowest(late)
  {
    seq(k, i => Slowest(late))
  }

  lemma {:induction false} SlowRunIsWorst(c: Config, late: nat, s: State, j: nat, k: nat)
    requires c.Valid() && c.rotateAfter <= 0 && InWindow(c, late, s, j)
    requires s.now == Window(c, s.leaf) + Spent(c, late, j) - MILLISECOND - late
    ensures var s' := Iterate(c, s, SlowRun(late, k));
            s'.leaf == s.leaf && AttemptAt(c, s', Slowest(late)) == Window(c, s.leaf) + Spent(c, late, j + k)
    decreases k
  {
    AttemptInTime(c, late, s, j, Slowest(late));
    SlowestStep(c, late, s, j);
    if k > 0 {
      hide Next, AttemptAt, InWindow, Window, Spent;
      assert SlowRun(late, k)[1..] == SlowRun(late, k - 1);
      SlowRunIsWorst(c, late, Next(c, s, Slowest(late)), j + 1, k - 1);
    }
  }

  lemma SlowestStep(c: Config, late: nat, s: State, j: nat)
    requires c.Valid() && c.rotateAfter <= 0 && InWindow(c, late, s, j)
    requires s.now == Window(c, s.leaf) + Spent(c, late, j) - MILLISECOND - late
    ensures AttemptAt(c, s, Slowest(late)) == Window(c, s.leaf) + Spent(c, late, j)
    ensures var s' := Next(c, s, Slowest(late));
            s'.leaf == s.leaf && s'.now == Window(c, s.leaf) + Spent(c, late, j + 1) - MILLISECOND - late
  {
    SpentGrows(c, late, j, j + 1);
  }

  /** Every timely run of k failures from `s` is followed by an attempt that starts
      before the leaf expires. */
  ghost predicate StartsInTime(c: Config, late: nat, s: State, k: nat)
    requires s.leaf.Leaf?
  {
    forall ts: seq<Turn>, t: Turn ::
      |ts| == k && (forall i :: 0 <= i < k ==> Timely(ts[i], late) && !ts[i].reply.Issued?) && Timely(t, late)
      && Iterate(c, s, ts).leaf == s.leaf
      ==> AttemptAt(c, Iterate(c, s, ts), t) < s.leaf.notAfter
  }

  lemma AtWindow(c: Config, late: nat, s: State)
    requires s.leaf.Leaf? && s.backoff == c.minInterval && s.now == Window(c, s.leaf)
    ensures InWindow(c, late, s, 0) && Spent(c, late, 0) == MILLISECOND + late
  {
  }

  lemma {:induction false} AfterFailures(c: Config, late: nat, s: State, ts: seq<Turn>, t: Turn)
    requires c.Valid() && c.rotateAfter <= 0 && InWindow(c, late, s, 0) && Timely(t, late)
    requires forall i :: 0 <= i < |ts| ==> Timely(ts[i], late) && !ts[i].reply.Issued?
    ensures Iterate(c, s, ts).leaf == s.leaf
    ensures AttemptAt(c, Iterate(c, s, ts), t) <= Window(c, s.leaf) + Spent(c, late, |ts|)
  {
    hide Next, Spent, AttemptAt, Iterate, InWindow;
    FailureRun(c, late, s, 0, ts);
    AttemptInTime(c, late, Iterate(c, s, ts), |ts|, t);
  }

  /** From the moment a leaf's window opens, k + 1 attempts are sure to start before it
      expires if and only if the threshold exceeds the longest time that k
      failures can take. */
  lemma AttemptsByThreshold(c: Config, late: nat, s: State, k: nat)
    requires c.Valid() && c.rotateAfter <= 0 && s.leaf.Leaf? && s.backoff == c.minInterval
    requires s.now == Window(c, s.leaf)
    ensures StartsInTime(c, late, s, k)
            <==> c.Threshold(s.leaf.notAfter - s.leaf.notBefore) > Spent(c, late, k)
  {
    hide Next, Spent, AttemptAt, Iterate, InWindow;
    AtWindow(c, late, s);
    if c.Threshold(s.leaf.notAfter - s.leaf.notBefore) > Spent(c, late, k) {
      forall ts: seq<Turn>, t: Turn |
        |ts| == k && (forall i :: 0 <= i < k ==> Timely(ts[i], late) && !ts[i].reply.Issued?) && Timely(t, late)
        && Iterate(c, s, ts).leaf == s.leaf
        ensures AttemptAt(c, Iterate(c, s, ts), t) < s.leaf.notAfter
      {
        AfterFailures(c, late, s, ts, t);
      }
    } else {
      SlowRunIsWorst(c, late, s, 0, k);
      assert Timely(Slowest(late), late);
      assert AttemptAt(c, Iterate(c, s, SlowRun(late, k)), Slowest(late)) >= s.leaf.notAfter;
    }
  }

  /** HOW MANY ATTEMPTS, EXACTLY. That is the case if and only if this time is less than the
      retry interval, or else less than the lead and within the fraction of the
      leaf's lifetime. */
  lemma AttemptsExactly(c: Config, late: nat, s: State, k: nat)
    requires c.Valid() && c.rotateAfter <= 0 && s.leaf.Leaf? && s.backoff == c.minInterval
    requires s.now == Window(c, s.leaf)
    ensures var spent, lifetime := Spent(c, late, k), s.leaf.notAfter - s.leaf.notBefore;
            StartsInTime(c, late, s, k) <==>
              || spent < c.minInterval
              || (spent < c.maxLead && (spent + 1) as real <= lifetime as real * c.rotateFrac)
  {
    hide StartsInTime, Spent, Config.Threshold;
    AttemptsByThreshold(c, late, s, k);
    ThresholdExactly(c, s.leaf.notAfter - s.leaf.notBefore, Spent(c, late, k) + 1);
  }

  /** A leaf that leaves room for k failures and one more call. */
  predicate Roomy(c: Config, late: nat, k: nat, leaf: Leaf) {
    leaf.Leaf? && c.Threshold(leaf.notAfter - leaf.notBefore) > Spent(c, late, k) + RPC_LIMIT
  }

  /** A run in which at most k refreshes fail in a row and every leaf handed out is
      roomy and arrives before its own window opens. */
  ghost predicate ServedInTime(c: Config, late: nat, k: nat, s: State, failures: nat, ts: seq<Turn>)
    decreases |ts|
  {
    && failures <= k
    && (ts == [] ||
        (&& Timely(ts[0], late)
         && var s' := Next(c, s, ts[0]);
         if ts[0].reply.Issued?
         then Roomy(c, late, k, s'.leaf) && s'.now <= Window(c, s'.leaf) && ServedInTime(c, late, k, s', 0, ts[1..])
         else ServedInTime(c, late, k, s', failures + 1, ts[1..])))
  }

  /** At no time during these turns is the stored leaf past its end: the old one is
      still good when its replacement arrives, the new one when the turn ends. */
  ghost predicate Unexpired(c: Config, s: State, ts: seq<Turn>)
    decreases |ts|
  {
    ts == [] ||
    (&& s.leaf.Leaf?
     && AttemptAt(c, s, ts[0]) + ts[0].rpc < s.leaf.notAfter
     && var s' := Next(c, s, ts[0]);
     s'.leaf.Leaf? && s'.now < s'.leaf.notAfter && Unexpired(c, s', ts[1..]))
  }

  /** NEVER EXPIRED. In every such run the presented leaf is valid at every moment. */
  lemma {:induction false} NeverExpired(c: Config, late: nat, k: nat, s: State, failures: nat, ts: seq<Turn>)
    requires c.Valid() && c.rotateAfter <= 0
    requires InWindow(c, late, s, failures) && Roomy(c, late, k, s.leaf)
    requires ServedInTime(c, late, k, s, failures, ts)
    ensures Unexpired(c, s, ts)
    decreases |ts|
  {
    if ts != [] {
      var s' := Next(c, s, ts[0]);
      AttemptInTime(c, late, s, failures, ts[0]);
      SpentGrows(c, late, failures, k);
      if ts[0].reply.Issued? {
        SpentGrows(c, late, 0, k);
        NeverExpired(c, late, k, s', 0, ts[1..]);
      } else {
        if failures + 1 <= k {
          SpentGrows(c, late, failures + 1, k);
        }
        NeverExpired(c, late, k, s', failures + 1, ts[1..]);
      }
    }
  }
}
