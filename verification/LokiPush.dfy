/** Grouping a batch by level for Loki's push API: one stream per level, streams
in first-seen order, entries in batch order. */
module LokiPush {
  import opened Basics

  datatype Entry = Entry(level: string, time: int, line: seq<char>)

  /** The wire form of one entry: time stamp and line. */
  type Value = (int, seq<char>)

  datatype Stream = Stream(level: string, values: seq<Value>)

  /** The zero time; such entries are stamped with the clock's answer instead. */
  const ZERO_TIME: int := 0

  function LevelOf(e: Entry): string {
    if e.level == "" then "info" else e.level
  }

  function ValueOf(e: Entry, now: int): Value {
    (if e.time == ZERO_TIME then now else e.time, e.line)
  }

  /** The levels of a batch in the order in which they first occur. */
  ghost function FirstSeen(es: seq<Entry>): seq<string> {
    if es == [] then []
    else
      var seen := FirstSeen(es[..|es| - 1]);
      var l := LevelOf(es[|es| - 1]);
      if l in seen then seen else seen + [l]
  }

  /** The values of one level, in batch order; `clock(i)` answers for entry i. */
  ghost function Select(es: seq<Entry>, clock: nat -> int, level: string): seq<Value> {
    if es == [] then []
    else
      var n := |es| - 1;
      Select(es[..n], clock, level) + (if LevelOf(es[n]) == level then [ValueOf(es[n], clock(n))] else [])
  }

  lemma NothingSeen(es: seq<Entry>, clock: nat -> int)
    ensures FirstSeen(es[..0]) == []
  {
  }

  lemma FirstSeenStep(es: seq<Entry>, i: nat)
    requires i < |es|
    ensures var seen, l := FirstSeen(es[..i]), LevelOf(es[i]);
            FirstSeen(es[..i + 1]) == if l in seen then seen else seen + [l]
  {
    assert es[..i + 1][..i] == es[..i];
  }

  lemma SelectNext(es: seq<Entry>, clock: nat -> int, level: string, i: nat)
    requires i < |es|
    ensures Select(es[..i + 1], clock, level)
         == if LevelOf(es[i]) == level then Select(es[..i], clock, level) + [ValueOf(es[i], clock(i))]
            else Select(es[..i], clock, level)
  {
    assert es[..i + 1][..i] == es[..i];
    assert Select(es[..i], clock, level) + [] == Select(es[..i], clock, level);
  }

  method Group(es: seq<Entry>, clock: nat -> int) returns (streams: seq<Stream>)
    ensures |streams| == |FirstSeen(es)|
    ensures forall k :: 0 <= k < |streams| ==>
              streams[k] == Stream(FirstSeen(es)[k], Select(es, clock, FirstSeen(es)[k]))
  {
    hide FirstSeen, Select, LevelOf, ValueOf;
    var byLevel: map<string, seq<Value>> := map[];
    var order: seq<string> := [];
    NothingSeen(es, clock);
    for i := 0 to |es|
      invariant order == FirstSeen(es[..i])
      invariant forall l :: l in byLevel <==> l in order
      invariant forall l :: l in byLevel ==> byLevel[l] == Select(es[..i], clock, l)
    {
      var e := es[i];
      var lvl := LevelOf(e);
      FirstSeenStep(es, i);
      forall l
        ensures Select(es[..i + 1], clock, l) == if l == lvl then Select(es[..i], clock, l) + [ValueOf(e, clock(i))]
                                                 else Select(es[..i], clock, l)
      {
        SelectNext(es, clock, l, i);
      }
      if lvl !in byLevel {
        AbsentSelectsNothing(es[..i], clock, lvl);
        byLevel := byLevel[lvl := []];
        order := order + [lvl];
      }
      byLevel := byLevel[lvl := byLevel[lvl] + [ValueOf(e, clock(i))]];
    }
    assert es[..|es|] == es;
    streams := [];
    for k := 0 to |order|
      invariant |streams| == k
      invariant forall j :: 0 <= j < k ==> streams[j] == Stream(order[j], Select(es, clock, order[j]))
    {
      assert order[k] in order;
      streams := streams + [Stream(order[k], byLevel[order[k]])];
    }
  }

  lemma {:induction false} FirstSeenComplete(es: seq<Entry>, i: nat)
    requires i < |es|
    ensures LevelOf(es[i]) in FirstSeen(es)
  {
    if i < |es| - 1 {
      FirstSeenComplete(es[..|es| - 1], i);
    }
  }

  lemma {:induction false} AbsentSelectsNothing(es: seq<Entry>, clock: nat -> int, level: string)
    requires level !in FirstSeen(es)
    ensures Select(es, clock, level) == []
  {
    if es != [] {
      AbsentSelectsNothing(es[..|es| - 1], clock, level);
    }
  }

  /** Position k of the order is the level of an entry before which only the
      levels at earlier positions occur. */
  lemma {:induction false} FirstSeenOrder(es: seq<Entry>, k: nat) returns (i: nat)
    requires k < |FirstSeen(es)|
    ensures i < |es| && LevelOf(es[i]) == FirstSeen(es)[k]
    ensures FirstSeen(es[..i]) == FirstSeen(es)[..k]
    ensures FirstSeen(es)[k] !in FirstSeen(es)[..k]
  {
    var n := |es| - 1;
    if k < |FirstSeen(es[..n])| {
      i := FirstSeenOrder(es[..n], k);
      assert es[..n][..i] == es[..i];
      assert FirstSeen(es)[..k] == FirstSeen(es[..n])[..k];
    } else {
      i := n;
    }
  }

  /** `at` lists, in order, the positions of the entries of a level. */
  ghost predicate Positions(es: seq<Entry>, level: string, at: seq<nat>) {
    && (forall i, j :: 0 <= i < j < |at| ==> at[i] < at[j])
    && (forall k :: 0 <= k < |at| ==>
          at[k] < |es| && (if es[at[k]].level == "" then "info" else es[at[k]].level) == level)
    && (forall i :: 0 <= i < |es| && (if es[i].level == "" then "info" else es[i].level) == level ==> i in at)
  }

  /** Each value is the line at its position, stamped with the entry's own time or, if it has
      none, with the clock's. */
  ghost predicate Carries(es: seq<Entry>, clock: nat -> int, at: seq<nat>, vs: seq<Value>) {
    && |at| == |vs|
    && (forall k :: 0 <= k < |at| ==>
          && at[k] < |es|
          && vs[k] == (if es[at[k]].time == 0 then clock(at[k]) else es[at[k]].time, es[at[k]].line))
  }

  /** A STREAM'S VALUES. They are those of the entries of its level (an entry without one
      counts as "info"), all of them, in batch order. */
  lemma {:induction false} SelectInOrder(es: seq<Entry>, clock: nat -> int, level: string) returns (at: seq<nat>)
    ensures Positions(es, level, at) && Carries(es, clock, at, Select(es, clock, level))
  {
    hide Positions, Carries, Select, LevelOf, ValueOf;
    if es == [] {
      at := [];
      NothingSelected(clock, level);
    } else {
      var n := |es| - 1;
      assert es[..n + 1] == es;
      var init := SelectInOrder(es[..n], clock, level);
      at := if LevelOf(es[n]) == level then init + [n] else init;
      PositionsNext(es, level, init);
      SelectNext(es, clock, level, n);
      CarriesNext(es, clock, init, Select(es[..n], clock, level));
    }
  }

  lemma NothingSelected(clock: nat -> int, level: string)
    ensures Positions([], level, []) && Carries([], clock, [], Select([], clock, level))
  {
  }

  lemma CarriesNext(es: seq<Entry>, clock: nat -> int, init: seq<nat>, vs: seq<Value>)
    requires es != [] && Carries(es[..|es| - 1], clock, init, vs)
    ensures Carries(es, clock, init, vs)
    ensures Carries(es, clock, init + [|es| - 1], vs + [ValueOf(es[|es| - 1], clock(|es| - 1))])
  {
  }

  lemma PositionsNext(es: seq<Entry>, level: string, init: seq<nat>)
    requires es != [] && Positions(es[..|es| - 1], level, init)
    ensures Positions(es, level, if LevelOf(es[|es| - 1]) == level then init + [|es| - 1] else init)
  {
    var n := |es| - 1;
    var at := if LevelOf(es[n]) == level then init + [n] else init;
    forall i | 0 <= i < |es| && (if es[i].level == "" then "info" else es[i].level) == level
      ensures i in at
    {
      if i < n {
        assert es[..n][i] == es[i] && i in init;
      } else {
        assert at[|init|] == n;
      }
    }
  }

  lemma FirstSeenDistinct(es: seq<Entry>)
    ensures NoRepeats(FirstSeen(es))
  {
    forall j, k | 0 <= j < k < |FirstSeen(es)|
      ensures FirstSeen(es)[j] != FirstSeen(es)[k]
    {
      var i := FirstSeenOrder(es, k);
      assert FirstSeen(es)[..k][j] == FirstSeen(es)[j];
    }
  }

  ghost function AllValues(es: seq<Entry>, clock: nat -> int): seq<Value> {
    if es == [] then []
    else
      var n := |es| - 1;
      AllValues(es[..n], clock) + [ValueOf(es[n], clock(n))]
  }

  ghost function Contents(order: seq<string>, es: seq<Entry>, clock: nat -> int): multiset<Value> {
    if order == [] then multiset{}
    else
      var k := |order| - 1;
      Contents(order[..k], es, clock) + multiset(Select(es, clock, order[k]))
  }

  lemma SelectStep(es: seq<Entry>, clock: nat -> int, level: string)
    requires es != []
    ensures var n := |es| - 1;
            multiset(Select(es, clock, level)) ==
              multiset(Select(es[..n], clock, level))
              + (if LevelOf(es[n]) == level then multiset{ValueOf(es[n], clock(n))} else multiset{})
  {
  }

  /** One more entry adds its value to exactly the stream of its level. */
  lemma {:induction false} ContentsStep(order: seq<string>, es: seq<Entry>, clock: nat -> int)
    requires NoRepeats(order) && es != []
    ensures var n := |es| - 1;
            Contents(order, es, clock) ==
              Contents(order, es[..n], clock)
              + (if LevelOf(es[n]) in order then multiset{ValueOf(es[n], clock(n))} else multiset{})
  {
    hide Select, LevelOf, ValueOf;
    if order != [] {
      var n, k := |es| - 1, |order| - 1;
      ContentsStep(order[..k], es, clock);
      SelectStep(es, clock, order[k]);
      assert order == order[..k] + [order[k]];
      assert order[k] !in order[..k];
    }
  }

  /** PARTITION. Taken together the streams hold every entry exactly once. */
  lemma {:induction false} GroupPartitions(es: seq<Entry>, clock: nat -> int)
    ensures NoRepeats(FirstSeen(es))
    ensures Contents(FirstSeen(es), es, clock) == multiset(AllValues(es, clock))
  {
    FirstSeenDistinct(es);
    if es != [] {
      var n := |es| - 1;
      var init := es[..n];
      GroupPartitions(init, clock);
      ContentsStep(FirstSeen(es), es, clock);
      FirstSeenComplete(es, n);
      if LevelOf(es[n]) !in FirstSeen(init) {
        AbsentSelectsNothing(init, clock, LevelOf(es[n]));
        assert FirstSeen(es)[..|FirstSeen(init)|] == FirstSeen(init);
      }
    }
  }
}
