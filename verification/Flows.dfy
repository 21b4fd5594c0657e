/** The flow composer: a trigger and an ordered list of steps compiled to a graph, and back.

A check step chooses where to go when its condition holds and otherwise: to the
next step, to the end, or to a later step picked from a menu by its id. The
compiler turns a picked id such as "s3" into a number first, which is not a
number, and so into the id "sNaN" that no node has (`Target`).
*/
module Flows {
  import opened Basics
  import Version

  datatype Choice = Unset | Next | End | Jump(id: string)

  /** What a step or node does. `N` is how its numbers are held: a step has them, a node
      may lack them. */
  datatype Body<+N> =
    | Script(name: string, lang: string, script: string, timeout: N)
    | Check(name: string, metric: string, source: string, op: string, threshold: N, timeout: N)
    | Notify(name: string, message: string)

  /** `whenTrue` and `whenFalse` matter for checks only. */
  datatype Step = Step(body: Body<int>, whenTrue: Choice, whenFalse: Choice)

  /** The condition that starts a flow. */
  datatype Trigger<+N> = Trigger(name: string, metric: string, source: string, op: string, threshold: N)

  datatype Composer = Composer(trigger: Trigger<int>, steps: seq<Step>)

  datatype Edge = Linear(next: string) | Branch(whenTrue: string, whenFalse: string)

  datatype Node = Node(id: string, body: Body<Option<int>>, edge: Edge)

  /** The trigger node, with where it leads, and the nodes of the steps. */
  datatype Graph = Graph(trigger: Trigger<Option<int>>, start: string, nodes: seq<Node>)

  const NAN_ID := "sNaN"
  const TRIGGER_ID := "t"

  // ---- ids ----

  function StepId(i: nat): string {
    "s" + Decimal(i + 1)
  }

  lemma StepIdUnique(i: nat, j: nat)
    ensures StepId(i) == StepId(j) <==> i == j
    ensures StepId(i) != NAN_ID && StepId(i) != "" && StepId(i) != TRIGGER_ID
    ensures StepId(i) == "s" + Decimal(i + 1)
  {
    if StepId(i) == StepId(j) {
      assert StepId(i)[1..] == Decimal(i + 1) && StepId(j)[1..] == Decimal(j + 1);
      DecimalInjective(i + 1, j + 1);
    }
    DecimalDigits(i + 1);
    assert NAN_ID[1] == 'N' && StepId(i)[1] == Decimal(i + 1)[0];
    assert StepId(i)[0] == 's' && TRIGGER_ID[0] == 't';
  }

  // ---- names ----

  /** White space and line ends, as JavaScript's `trim` takes them off. */
  predicate IsBlank(c: char) {
    || '\U{0009}' <= c <= '\U{000D}' || c == ' ' || c == '\U{00A0}' || c == '\U{1680}'
    || '\U{2000}' <= c <= '\U{200A}' || c == '\U{2028}' || c == '\U{2029}' || c == '\U{202F}'
    || c == '\U{205F}' || c == '\U{3000}' || c == '\U{FEFF}'
  }

  predicate Trimmed(s: string) {
    s == "" || (!IsBlank(s[0]) && !IsBlank(s[|s| - 1]))
  }

  predicate AllBlank(s: string) {
    forall i :: 0 <= i < |s| ==> IsBlank(s[i])
  }

  function Trim(s: string): (r: string)
    ensures Trimmed(r)
    ensures Trimmed(s) ==> r == s
    ensures AllBlank(s) ==> r == ""
  {
    if s == "" then s
    else if IsBlank(s[0]) then Trim(s[1..])
    else if IsBlank(s[|s| - 1]) then Trim(s[..|s| - 1])
    else s
  }

  /** Only blanks around the text are taken off. */
  lemma {:induction false} TrimAround(before: string, s: string, after: string)
    requires AllBlank(before) && AllBlank(after) && Trimmed(s) && s != ""
    ensures Trim(before + s + after) == s
    decreases |before| + |after|
  {
    hide IsBlank;
    var t := before + s + after;
    if before != [] {
      TrimAround(before[1..], s, after);
      assert t[0] == before[0] && t[1..] == before[1..] + s + after;
    } else if after != [] {
      TrimAround(before, s, after[..|after| - 1]);
      assert t[0] == s[0] && t[|t| - 1] == after[|after| - 1];
      assert t[..|t| - 1] == before + s + after[..|after| - 1];
    } else {
      assert t == s;
    }
  }

  function Number(n: int): string {
    if n < 0 then "-" + Decimal(-n) else Decimal(n)
  }

  function Condition(metric: string, op: string, threshold: int): string {
    metric + " " + op + " " + Number(threshold)
  }

  /** A name, or what stands for it if it is blank. */
  function Label(name: string, default: string): string {
    if Trim(name) == "" then default else Trim(name)
  }

  function DefaultName(b: Body<int>): string {
    match b
    case Script(_, _, _, _) => "run script"
    case Check(_, metric, _, op, threshold, _) => "check " + Condition(metric, op, threshold)
    case Notify(_, _) => "notify"
  }

  lemma {:induction false} ConditionTrimmed(word: string, metric: string, op: string, threshold: int)
    requires word != "" && !IsBlank(word[0])
    ensures Trimmed(word + Condition(metric, op, threshold)) && word + Condition(metric, op, threshold) != ""
  {
    var n := Number(threshold);
    var s := word + Condition(metric, op, threshold);
    DecimalDigits(if threshold < 0 then -threshold else threshold);
    assert s == (word + metric + " " + op + " ") + n;
    assert s[|s| - 1] == n[|n| - 1] && s[0] == word[0];
  }

  /** NAMES. A name with blanks around it is sent without them; a blank one as what describes
      the step. */
  lemma NamesSent(before: string, name: string, after: string, b: Body<int>)
    requires AllBlank(before) && AllBlank(after) && Trimmed(name)
    requires b.name == before + name + after
    ensures name != "" ==> Sent(b).name == name
    ensures name == "" && b.Script? ==> Sent(b).name == "run script"
    ensures name == "" && b.Notify? ==> Sent(b).name == "notify"
    ensures name == "" && b.Check? ==>
              Sent(b).name == "check " + b.metric + " " + b.op + " " + (if b.threshold < 0 then "-" else "")
                              + Decimal(if b.threshold < 0 then -b.threshold else b.threshold)
  {
    if name != "" {
      TrimAround(before, name, after);
    } else if b.Check? {
      var n := Number(b.threshold);
      assert "check " + (b.metric + " " + b.op + " " + n) == "check " + b.metric + " " + b.op + " " + n;
      assert b.threshold >= 0 ==> "" + Decimal(b.threshold) == Decimal(b.threshold);
      SignedNumber("check " + b.metric + " " + b.op + " ", b.threshold);
    }
  }

  lemma SignedNumber(before: string, n: int)
    ensures before + Number(n) == before + (if n < 0 then "-" else "") + Decimal(if n < 0 then -n else n)
  {
  }

  lemma DefaultNameTrimmed(b: Body<int>)
    ensures Trimmed(DefaultName(b)) && DefaultName(b) != ""
  {
    if b.Check? {
      assert "check "[0] == 'c';
      ConditionTrimmed("check ", b.metric, b.op, b.threshold);
    } else {
      assert "run script"[0] == 'r' && "run script"[9] == 't' && "notify"[0] == 'n' && "notify"[5] == 'y';
    }
  }

  // ---- compiling ----

  function NextId(n: nat, i: nat): string {
    if i + 1 < n then StepId(i + 1) else ""
  }

  function Target(n: nat, i: nat, c: Choice, default: Choice): string
    requires default.Next? || default.End?
  {
    match (if c.Unset? then default else c)
    case Next => NextId(n, i)
    case End => ""
    case Jump(_) => NAN_ID
  }

  /** The composer always sends its numbers, and a name. */
  function Sent(b: Body<int>): Body<Option<int>> {
    var name := Label(b.name, DefaultName(b));
    match b
    case Script(_, lang, script, timeout) => Script(name, lang, script, Some(timeout))
    case Check(_, metric, source, op, threshold, timeout) =>
      Check(name, metric, source, op, Some(threshold), Some(timeout))
    case Notify(_, message) => Notify(name, message)
  }

  function TriggerName(t: Trigger<int>): string {
    Label(t.name, "when " + Condition(t.metric, t.op, t.threshold))
  }

  function SentTrigger(t: Trigger<int>): Trigger<Option<int>> {
    Trigger(TriggerName(t), t.metric, t.source, t.op, Some(t.threshold))
  }

  function NodeOf(steps: seq<Step>, i: nat): Node
    requires i < |steps|
  {
    var st, n := steps[i], |steps|;
    Node(StepId(i), Sent(st.body),
         if st.body.Check? then Branch(Target(n, i, st.whenTrue, Next), Target(n, i, st.whenFalse, End))
         else Linear(NextId(n, i)))
  }

  function Build(c: Composer): Graph {
    Graph(SentTrigger(c.trigger),
          if c.steps == [] then "" else StepId(0),
          seq(|c.steps|, i requires 0 <= i < |c.steps| => NodeOf(c.steps, i)))
  }

  method BuildGraph(c: Composer) returns (g: Graph)
    ensures g == Build(c)
  {
    hide StepId, Sent, TriggerName;
    var steps, trig := c.steps, c.trigger;
    var trigger := Trigger(TriggerName(trig), trig.metric, trig.source, trig.op, Some(trig.threshold));
    var nodes: seq<Node> := [];
    for i := 0 to |steps|
      invariant |nodes| == i
      invariant forall j :: 0 <= j < i ==> nodes[j] == NodeOf(steps, j)
    {
      var st := steps[i];
      var nextId := if i + 1 < |steps| then StepId(i + 1) else "";
      if st.body.Check? {
        nodes := nodes + [Node(StepId(i), Sent(st.body),
          Branch(Target(|steps|, i, st.whenTrue, Next), Target(|steps|, i, st.whenFalse, End)))];
      } else {
        nodes := nodes + [Node(StepId(i), Sent(st.body), Linear(nextId))];
      }
    }
    g := Graph(trigger, if |steps| > 0 then StepId(0) else "", nodes);
  }

  // ---- running ----

  /** The step that a picked id names, among the n of a composer. */
  ghost function Named(id: string, n: nat): Option<nat> {
    if exists j: nat :: j < n && StepId(j) == id then
      var j: nat :| j < n && StepId(j) == id;
      Some(j)
    else None
  }

  /** Where a choice is meant to lead from step i; n stands for the end. */
  ghost function Meant(n: nat, i: nat, c: Choice, default: Choice): (j: nat)
    requires i < n && (default.Next? || default.End?)
    ensures i < j <= n
  {
    match (if c.Unset? then default else c)
    case Next => i + 1
    case End => n
    case Jump(id) => match Named(id, n) { case Some(j) => if j > i then j else n case None => n }
  }

  /** The steps that run when check i comes out as `holds(i)`, read off the list. */
  ghost function Visits(steps: seq<Step>, i: nat, holds: nat -> bool): seq<nat>
    decreases |steps| - i
  {
    if i >= |steps| then []
    else
      var st := steps[i];
      [i] + Visits(steps, if !st.body.Check? then i + 1
                          else if holds(i) then Meant(|steps|, i, st.whenTrue, Next)
                          else Meant(|steps|, i, st.whenFalse, End), holds)
  }

  /** The index by id that both the walk and the way back use; of several nodes with
      one id the last counts. */
  ghost function ById(nodes: seq<Node>): (m: map<string, nat>)
    ensures forall id :: id in m ==> m[id] < |nodes| && nodes[m[id]].id == id
    ensures forall k :: 0 <= k < |nodes| ==> nodes[k].id in m
  {
    if nodes == [] then map[]
    else
      var n := |nodes| - 1;
      ById(nodes[..n])[nodes[n].id := n]
  }

  ghost predicate Indexes(m: map<string, nat>, g: Graph) {
    forall id :: id in m ==> m[id] < |g.nodes|
  }

  /** The nodes that run, following edges by id for at most `hops` hops. */
  ghost function Walk(g: Graph, m: map<string, nat>, id: string, holds: nat -> bool, hops: nat): seq<nat>
    requires Indexes(m, g)
    decreases hops
  {
    if hops == 0 || id !in m then []
    else
      var k := m[id];
      var e := g.nodes[k].edge;
      [k] + Walk(g, m, if e.Linear? then e.next else if holds(k) then e.whenTrue else e.whenFalse, holds, hops - 1)
  }

  /** A graph with its index that is the compiled form of a list. */
  ghost predicate Compiled(steps: seq<Step>, g: Graph, m: map<string, nat>) {
    && |g.nodes| == |steps| && (forall i :: 0 <= i < |steps| ==> g.nodes[i] == NodeOf(steps, i))
    && (forall i :: 0 <= i < |steps| ==> StepId(i) in m && m[StepId(i)] == i)
    && "" !in m && NAN_ID !in m && Indexes(m, g)
  }

  lemma BuildCompiles(c: Composer) returns (g: Graph, m: map<string, nat>)
    ensures g == Build(c) && m == ById(g.nodes)
    ensures Compiled(c.steps, g, m)
    ensures g.start == if c.steps == [] then "" else StepId(0)
  {
    var steps := c.steps;
    g := Build(c);
    m := ById(g.nodes);
    forall k: nat, i: nat | k < |steps|
      ensures g.nodes[k].id == StepId(i) <==> k == i
      ensures g.nodes[k].id != "" && g.nodes[k].id != NAN_ID
    {
      StepIdUnique(k, i);
    }
    forall i | 0 <= i < |steps|
      ensures StepId(i) in m && m[StepId(i)] == i
    {
      assert g.nodes[i].id == StepId(i);
    }
  }

  /** What the graph does with a choice: jumps end the chain. */
  ghost function Led(n: nat, i: nat, c: Choice, default: Choice): (j: nat)
    requires i < n && (default.Next? || default.End?)
    ensures i < j <= n
  {
    if (if c.Unset? then default else c).Next? then i + 1 else n
  }

  ghost function GraphVisits(steps: seq<Step>, i: nat, holds: nat -> bool): seq<nat>
    decreases |steps| - i
  {
    if i >= |steps| then []
    else
      var st := steps[i];
      [i] + GraphVisits(steps, if !st.body.Check? then i + 1
                               else if holds(i) then Led(|steps|, i, st.whenTrue, Next)
                               else Led(|steps|, i, st.whenFalse, End), holds)
  }

  /** An id leads to step j, or nowhere if j is past the end. */
  predicate Leads(m: map<string, nat>, id: string, j: nat, n: nat) {
    if j < n then id in m && m[id] == j else id !in m
  }

  lemma TargetLeads(steps: seq<Step>, g: Graph, m: map<string, nat>, i: nat, c: Choice, default: Choice)
    requires Compiled(steps, g, m) && i < |steps| && (default.Next? || default.End?)
    ensures Leads(m, Target(|steps|, i, c, default), Led(|steps|, i, c, default), |steps|)
    ensures Leads(m, NextId(|steps|, i), i + 1, |steps|)
  {
  }

  /** One hop of the built graph. */
  lemma Hop(steps: seq<Step>, g: Graph, m: map<string, nat>, i: nat, id: string, holds: nat -> bool, hops: nat)
    returns (j: nat, next: string)
    requires Compiled(steps, g, m) && hops > 0 && i < |steps| && Leads(m, id, i, |steps|)
    ensures i < j <= |steps| && Leads(m, next, j, |steps|)
    ensures Walk(g, m, id, holds, hops) == [i] + Walk(g, m, next, holds, hops - 1)
    ensures GraphVisits(steps, i, holds) == [i] + GraphVisits(steps, j, holds)
  {
    hide StepId, Sent;
    var st, n := steps[i], |steps|;
    var e := NodeOf(steps, i).edge;
    TargetLeads(steps, g, m, i, st.whenTrue, Next);
    TargetLeads(steps, g, m, i, st.whenFalse, End);
    if !st.body.Check? {
      j, next := i + 1, e.next;
    } else if holds(i) {
      j, next := Led(n, i, st.whenTrue, Next), e.whenTrue;
    } else {
      j, next := Led(n, i, st.whenFalse, End), e.whenFalse;
    }
  }

  /** Walking the built graph ends, after at most one hop per step. */
  lemma {:induction false} WalkBuilt(steps: seq<Step>, g: Graph, m: map<string, nat>, i: nat, id: string,
                                     holds: nat -> bool, hops: nat)
    requires Compiled(steps, g, m) && hops > |steps| - i && i <= |steps| && Leads(m, id, i, |steps|)
    ensures Walk(g, m, id, holds, hops) == GraphVisits(steps, i, holds)
    ensures |GraphVisits(steps, i, holds)| <= |steps| - i
    decreases |steps| - i
  {
    hide Compiled, GraphVisits;
    CompiledIndexes(steps, g, m);
    if i == |steps| {
      NothingVisited(steps, i, holds);
    } else {
      var j, next := Hop(steps, g, m, i, id, holds, hops);
      WalkBuilt(steps, g, m, j, next, holds, hops - 1);
    }
  }

  lemma NothingVisited(steps: seq<Step>, i: nat, holds: nat -> bool)
    requires i >= |steps|
    ensures GraphVisits(steps, i, holds) == []
  {
  }

  /** A choice that is meant to lead to a later step by its id. */
  ghost predicate LiveJump(n: nat, i: nat, c: Choice) {
    c.Jump? && Named(c.id, n).Some? && i < Named(c.id, n).value
  }

  predicate GoesOn(c: Choice, default: Choice) {
    c.Next? || (c.Unset? && default.Next?)
  }

  /** No check that can be reached by going from step to step has a live jump. */
  ghost predicate JumpFree(steps: seq<Step>, i: nat)
    decreases |steps| - i
  {
    i < |steps| ==>
      var st := steps[i];
      if !st.body.Check? then JumpFree(steps, i + 1)
      else
        && !LiveJump(|steps|, i, st.whenTrue) && !LiveJump(|steps|, i, st.whenFalse)
        && (GoesOn(st.whenTrue, Next) || GoesOn(st.whenFalse, End) ==> JumpFree(steps, i + 1))
  }

  lemma {:induction false} JumpFreeAgrees(steps: seq<Step>, i: nat, holds: nat -> bool)
    requires JumpFree(steps, i)
    ensures GraphVisits(steps, i, holds) == Visits(steps, i, holds)
    decreases |steps| - i
  {
    if i < |steps| {
      var st := steps[i];
      if !st.body.Check? || (holds(i) && GoesOn(st.whenTrue, Next)) || (!holds(i) && GoesOn(st.whenFalse, End)) {
        JumpFreeAgrees(steps, i + 1, holds);
      }
    }
  }

  lemma {:induction false} ForwardOnly(steps: seq<Step>, i: nat, h: nat -> bool, h': nat -> bool)
    requires forall k :: k >= i ==> h(k) == h'(k)
    ensures Visits(steps, i, h) == Visits(steps, i, h')
    ensures GraphVisits(steps, i, h) == GraphVisits(steps, i, h')
    decreases |steps| - i
  {
    if i < |steps| {
      var st, n := steps[i], |steps|;
      var a := if !st.body.Check? then i + 1
               else if h(i) then Meant(n, i, st.whenTrue, Next)
               else Meant(n, i, st.whenFalse, End);
      var b := if !st.body.Check? then i + 1
               else if h(i) then Led(n, i, st.whenTrue, Next)
               else Led(n, i, st.whenFalse, End);
      ForwardOnly(steps, a, h, h');
      ForwardOnly(steps, b, h, h');
    }
  }

  /** With a reachable live jump some outcome of the checks tells graph and list apart. */
  lemma {:induction false} JumpTellsApart(steps: seq<Step>, i: nat) returns (holds: nat -> bool)
    requires !JumpFree(steps, i)
    ensures GraphVisits(steps, i, holds) != Visits(steps, i, holds)
    decreases |steps| - i
  {
    var st, n := steps[i], |steps|;
    if st.body.Check? && LiveJump(n, i, st.whenTrue) {
      holds := k => true;
      assert Visits(steps, Meant(n, i, st.whenTrue, Next), holds) != [];
    } else if st.body.Check? && LiveJump(n, i, st.whenFalse) {
      holds := k => false;
      assert Visits(steps, Meant(n, i, st.whenFalse, End), holds) != [];
    } else {
      var rest := JumpTellsApart(steps, i + 1);
      var branch := GoesOn(st.whenTrue, Next);
      holds := (k: nat) => if k == i then branch else rest(k);
      ForwardOnly(steps, i + 1, holds, rest);
      Tails(i, GraphVisits(steps, i + 1, holds), Visits(steps, i + 1, holds));
    }
  }

  lemma Tails(i: nat, a: seq<nat>, b: seq<nat>)
    requires a != b
    ensures [i] + a != [i] + b
  {
    assert ([i] + a)[1..] == a && ([i] + b)[1..] == b;
  }

  /** The steps that a stored graph runs. */
  ghost function Runs(g: Graph, holds: nat -> bool, hops: nat): seq<nat> {
    Walk(g, ById(g.nodes), g.start, holds, hops)
  }

  lemma StartLeads(steps: seq<Step>, g: Graph, m: map<string, nat>)
    requires Compiled(steps, g, m) && g.start == if steps == [] then "" else StepId(0)
    ensures Leads(m, g.start, 0, |steps|) && Indexes(m, g)
  {
  }

  /** A built graph's run is over after n + 1 hops, whatever the checks say. */
  lemma RunEnds(c: Composer, holds: nat -> bool, hops: nat)
    requires hops > |c.steps|
    ensures Runs(Build(c), holds, hops) == GraphVisits(c.steps, 0, holds)
    ensures |Runs(Build(c), holds, hops)| <= |c.steps|
  {
    hide Build, Compiled, ById;
    var g, m := BuildCompiles(c);
    StartLeads(c.steps, g, m);
    WalkBuilt(c.steps, g, m, 0, g.start, holds, hops);
  }

  /** SAME RUN, EXACTLY. The built graph runs the steps that the list means, for every
      outcome of the checks, if and only if no reachable check jumps to a later
      step by id. */
  lemma RunsAgreeExactly(c: Composer)
    ensures (forall holds: nat -> bool :: Runs(Build(c), holds, |c.steps| + 1) == Visits(c.steps, 0, holds))
            <==> JumpFree(c.steps, 0)
  {
    hide Runs, Build, Visits, GraphVisits, JumpFree;
    var g, steps := Build(c), c.steps;
    if JumpFree(steps, 0) {
      forall holds: nat -> bool
        ensures Runs(g, holds, |steps| + 1) == Visits(steps, 0, holds)
      {
        RunEnds(c, holds, |steps| + 1);
        JumpFreeAgrees(steps, 0, holds);
      }
    } else {
      var holds := JumpTellsApart(steps, 0);
      RunEnds(c, holds, |steps| + 1);
      assert Runs(g, holds, |steps| + 1) != Visits(steps, 0, holds);
    }
  }

  ghost predicate Known(m: map<string, nat>, target: string) {
    target == "" || target in m
  }

  /** The server's check that every edge leads to a node. */
  ghost predicate EdgesKnown(g: Graph) {
    var m := ById(g.nodes);
    forall k :: 0 <= k < |g.nodes| ==> NodeKnown(m, g.nodes[k].edge)
  }

  /** Does step i pick another step by id? */
  predicate Picks(st: Step) {
    st.body.Check? && (st.whenTrue.Jump? || st.whenFalse.Jump?)
  }

  ghost predicate NodeKnown(m: map<string, nat>, e: Edge) {
    match e
    case Linear(t) => Known(m, t)
    case Branch(t, u) => Known(m, t) && Known(m, u)
  }

  lemma NodeKnownExactly(steps: seq<Step>, g: Graph, m: map<string, nat>, i: nat)
    requires Compiled(steps, g, m) && i < |steps|
    ensures NodeKnown(m, NodeOf(steps, i).edge) <==> !Picks(steps[i])
  {
    TargetLeads(steps, g, m, i, steps[i].whenTrue, Next);
    TargetLeads(steps, g, m, i, steps[i].whenFalse, End);
  }

  /** DANGLING EDGES, EXACTLY. No edge of the built graph dangles if and only if no check
      picks a step by id at all. */
  lemma EdgesKnownExactly(c: Composer)
    ensures EdgesKnown(Build(c)) <==> (forall i :: 0 <= i < |c.steps| ==> !Picks(c.steps[i]))
  {
    hide NodeKnown, Picks, NodeOf, ById, Build;
    var g, m := BuildCompiles(c);
    forall i | 0 <= i < |c.steps|
      ensures NodeKnown(m, g.nodes[i].edge) <==> !Picks(c.steps[i])
    {
      NodeKnownExactly(c.steps, g, m, i);
    }
  }

  // ---- what the server accepts ----

  predicate KnownOp(op: string) {
    op == ">" || op == ">=" || op == "==" || op == "<" || op == "<="
  }

  predicate ConditionOk(metric: string, op: string) {
    metric != "" && KnownOp(op)
  }

  predicate TimeoutOk(timeout: Option<int>) {
    0 <= OrElse(timeout, 0) <= 86400
  }

  predicate BodyOk(b: Body<Option<int>>) {
    match b
    case Script(_, lang, script, timeout) =>
      (lang == "sh" || lang == "powershell" || lang == "python") && !Version.AllSpace(script) && TimeoutOk(timeout)
    case Check(_, metric, _, op, _, timeout) => ConditionOk(metric, op) && TimeoutOk(timeout)
    case Notify(_, _) => true
  }

  ghost predicate FieldsOk(g: Graph) {
    ConditionOk(g.trigger.metric, g.trigger.op) && forall k :: 0 <= k < |g.nodes| ==> BodyOk(g.nodes[k].body)
  }

  ghost predicate IdsOk(g: Graph) {
    && (forall k :: 0 <= k < |g.nodes| ==> !Version.AllSpace(g.nodes[k].id) && g.nodes[k].id != TRIGGER_ID)
    && (forall j, k :: 0 <= j < k < |g.nodes| ==> g.nodes[j].id != g.nodes[k].id)
  }

  predicate Points(m: map<string, nat>, e: Edge, k: nat) {
    match e
    case Linear(t) => t in m && m[t] == k
    case Branch(t, u) => (t in m && m[t] == k) || (u in m && m[u] == k)
  }

  /** Nodes met one after the other on a way from the trigger along edges. */
  ghost predicate Path(g: Graph, m: map<string, nat>, p: seq<nat>) {
    && p != [] && g.start in m && m[g.start] == p[0]
    && (forall i :: 0 <= i < |p| ==> p[i] < |g.nodes|)
    && (forall i :: 0 <= i < |p| - 1 ==> Points(m, g.nodes[p[i]].edge, p[i + 1]))
  }

  ghost predicate Acyclic(g: Graph, m: map<string, nat>) {
    forall p: seq<nat> :: Path(g, m, p) ==> NoRepeats(p)
  }

  ghost predicate Reached(g: Graph, m: map<string, nat>, k: nat) {
    exists p: seq<nat> :: Path(g, m, p) && p[|p| - 1] == k
  }

  /** The server's validation: fields, distinct ids, no dangling edge, no cycle, and no
      node that the trigger does not lead to. */
  ghost predicate Accepted(g: Graph) {
    var m := ById(g.nodes);
    && FieldsOk(g) && IdsOk(g) && Known(m, g.start) && EdgesKnown(g) && Acyclic(g, m)
    && forall k :: 0 <= k < |g.nodes| ==> Reached(g, m, k)
  }

  /** Does the flow come by to the next step, if only for some outcome of a check? */
  predicate PassesOn(st: Step) {
    st.body.Check? ==> GoesOn(st.whenTrue, Next) || GoesOn(st.whenFalse, End)
  }

  lemma PointsExactly(steps: seq<Step>, g: Graph, m: map<string, nat>, i: nat, k: nat)
    requires Compiled(steps, g, m) && i < |steps| && k < |steps|
    ensures Points(m, g.nodes[i].edge, k) <==> k == i + 1 && PassesOn(steps[i])
  {
    TargetLeads(steps, g, m, i, steps[i].whenTrue, Next);
    TargetLeads(steps, g, m, i, steps[i].whenFalse, End);
  }

  /** In a compiled list every way from the trigger runs along the list. */
  lemma PathIsLine(steps: seq<Step>, g: Graph, m: map<string, nat>, p: seq<nat>, i: nat)
    requires Compiled(steps, g, m) && g.start == (if steps == [] then "" else StepId(0)) && Path(g, m, p) && i < |p|
    ensures p[i] == i && (i + 1 < |p| ==> PassesOn(steps[i]))
  {
    if i > 0 {
      PathIsLine(steps, g, m, p, i - 1);
      PointsExactly(steps, g, m, i - 1, p[i]);
    }
    if i + 1 < |p| {
      PointsExactly(steps, g, m, p[i], p[i + 1]);
    }
  }

  lemma ReachedExactly(steps: seq<Step>, g: Graph, m: map<string, nat>, k: nat)
    requires Compiled(steps, g, m) && g.start == StepId(0) && k < |steps|
    ensures Reached(g, m, k) <==> forall i :: 0 <= i < k ==> PassesOn(steps[i])
  {
    hide Compiled, PassesOn;
    if p: seq<nat> :| Path(g, m, p) && p[|p| - 1] == k {
      PathIsLine(steps, g, m, p, |p| - 1);
      forall i | 0 <= i < k
        ensures PassesOn(steps[i])
      {
        PathIsLine(steps, g, m, p, i);
      }
    }
    if forall i :: 0 <= i < k ==> PassesOn(steps[i]) {
      LineIsPath(steps, g, m, k);
    }
  }

  lemma LineIsPath(steps: seq<Step>, g: Graph, m: map<string, nat>, k: nat)
    requires Compiled(steps, g, m) && g.start == StepId(0) && k < |steps|
    requires forall i :: 0 <= i < k ==> PassesOn(steps[i])
    ensures Reached(g, m, k)
  {
    var p: seq<nat> := seq(k + 1, i => i);
    forall i | 0 <= i < k
      ensures Points(m, g.nodes[p[i]].edge, p[i + 1])
    {
      PointsExactly(steps, g, m, i, i + 1);
    }
    assert Path(g, m, p);
  }

  lemma BuiltIdsOk(steps: seq<Step>, g: Graph, m: map<string, nat>)
    requires Compiled(steps, g, m)
    ensures IdsOk(g)
  {
    forall j: nat, k: nat | j < |steps| && k < |steps|
      ensures g.nodes[j].id == g.nodes[k].id <==> j == k
      ensures !Version.AllSpace(g.nodes[k].id) && g.nodes[k].id != TRIGGER_ID
    {
      StepIdUnique(j, k);
      StepIdUnique(k, j);
      assert StepId(k)[0] == 's';
    }
  }

  lemma BuiltAcyclic(steps: seq<Step>, g: Graph, m: map<string, nat>)
    requires Compiled(steps, g, m) && g.start == if steps == [] then "" else StepId(0)
    ensures Acyclic(g, m)
  {
    hide Compiled, Path;
    forall p: seq<nat> | Path(g, m, p)
      ensures NoRepeats(p)
    {
      forall i | 0 <= i < |p|
        ensures p[i] == i
      {
        PathIsLine(steps, g, m, p, i);
      }
    }
  }

  /** WHAT THE SERVER ACCEPTS, EXACTLY. A built graph is accepted if and only if its fields
      are, no check picks a step by id, and every check but the last goes on to the
      next step in some case. */
  lemma AcceptedExactly(c: Composer)
    ensures Accepted(Build(c)) <==>
            && FieldsOk(Build(c))
            && (forall i :: 0 <= i < |c.steps| ==> !Picks(c.steps[i]))
            && (forall i :: 0 <= i < |c.steps| - 1 ==> PassesOn(c.steps[i]))
  {
    hide FieldsOk, IdsOk, EdgesKnown, Acyclic, Reached, Picks, PassesOn, ById, Build, Leads;
    var g, m := BuildCompiles(c);
    var steps := c.steps;
    EdgesKnownExactly(c);
    BuiltIdsOk(steps, g, m);
    BuiltAcyclic(steps, g, m);
    StartLeads(steps, g, m);
    AllReachedExactly(steps, g, m);
  }

  lemma AllReachedExactly(steps: seq<Step>, g: Graph, m: map<string, nat>)
    requires Compiled(steps, g, m) && g.start == if steps == [] then "" else StepId(0)
    ensures (forall k :: 0 <= k < |g.nodes| ==> Reached(g, m, k))
            <==> (forall i :: 0 <= i < |steps| - 1 ==> PassesOn(steps[i]))
  {
    hide Reached, PassesOn;
    forall k | 0 <= k < |steps|
      ensures Reached(g, m, k) <==> forall i :: 0 <= i < k ==> PassesOn(steps[i])
    {
      ReachedExactly(steps, g, m, k);
    }
    if steps != [] {
      assert Reached(g, m, |steps| - 1) <==> forall i :: 0 <= i < |steps| - 1 ==> PassesOn(steps[i]);
    }
  }

  /** No edge dangles, and still the server refuses: nothing leads to the second step. */
  lemma UnreachableRefused(trigger: Trigger<int>, check: Body<int>, last: Body<int>)
    requires check.Check? && !last.Check?
    ensures var c := Composer(trigger, [Step(check, End, End), Step(last, Unset, Unset)]);
            EdgesKnown(Build(c)) && !Accepted(Build(c))
  {
    var c := Composer(trigger, [Step(check, End, End), Step(last, Unset, Unset)]);
    hide Accepted, EdgesKnown, Build, FieldsOk;
    EdgesKnownExactly(c);
    AcceptedExactly(c);
    assert !PassesOn(c.steps[0]);
  }

  // ---- and back ----

  const GUARD: nat := 64

  /** A number of zero is left out when the server writes a node as JSON. */
  function NonZero(n: Option<int>): Option<int> {
    if n == Some(0) then None else n
  }

  function StoredBody(b: Body<Option<int>>): Body<Option<int>> {
    match b
    case Script(name, lang, script, timeout) => Script(name, lang, script, NonZero(timeout))
    case Check(name, metric, source, op, threshold, timeout) =>
      Check(name, metric, source, op, NonZero(threshold), NonZero(timeout))
    case Notify(name, message) => Notify(name, message)
  }

  function StoredNode(n: Node): Node {
    n.(body := StoredBody(n.body))
  }

  function StoredTrigger(t: Trigger<Option<int>>): Trigger<Option<int>> {
    t.(threshold := NonZero(t.threshold))
  }

  /** A graph as the server gives it back. */
  function Stored(g: Graph): Graph {
    g.(trigger := StoredTrigger(g.trigger),
       nodes := seq(|g.nodes|, i requires 0 <= i < |g.nodes| => StoredNode(g.nodes[i])))
  }

  function FilledTrigger(t: Trigger<Option<int>>): Trigger<int> {
    Trigger(t.name, t.metric, t.source, if t.op == "" then ">" else t.op, OrElse(t.threshold, 90))
  }

  /** What a node lacks is filled in. */
  function Filled(b: Body<Option<int>>): Body<int> {
    match b
    case Script(name, lang, script, timeout) =>
      Script(name, if lang == "" then "sh" else lang, script, OrElse(timeout, 300))
    case Check(name, metric, source, op, threshold, timeout) =>
      Check(name, metric, source, if op == "" then ">" else op, OrElse(threshold, 90), OrElse(timeout, 300))
    case Notify(name, message) => Notify(name, message)
  }

  function StepOf(n: Node): Step {
    match n.edge
    case Linear(_) => Step(Filled(n.body), Unset, Unset)
    case Branch(t, u) => Step(Filled(n.body), if t != "" then Next else End, if u != "" then Jump(u) else End)
  }

  function Onward(n: Node): string {
    if n.edge.Linear? then n.edge.next else n.edge.whenTrue
  }

  /** The backbone of a graph, at most `guard` steps of it. */
  ghost function Recovered(g: Graph, m: map<string, nat>, id: string, guard: nat): seq<Step>
    requires Indexes(m, g)
    decreases guard
  {
    if guard == 0 || id == "" || id !in m then []
    else [StepOf(g.nodes[m[id]])] + Recovered(g, m, Onward(g.nodes[m[id]]), guard - 1)
  }

  /** A graph, opened in the composer. */
  ghost function Opened(g: Graph): Composer {
    Composer(FilledTrigger(g.trigger), Recovered(g, ById(g.nodes), g.start, GUARD))
  }

  method ToComposer(g: Graph) returns (c: Composer)
    ensures c == Opened(g)
  {
    var byId: map<string, nat> := map[];
    for k := 0 to |g.nodes|
      invariant byId == ById(g.nodes[..k])
    {
      assert g.nodes[..k + 1][..k] == g.nodes[..k];
      byId := byId[g.nodes[k].id := k];
    }
    assert g.nodes[..|g.nodes|] == g.nodes;
    var steps := Backbone(g, byId);
    c := Composer(FilledTrigger(g.trigger), steps);
  }

  /** The loop along the backbone. */
  method Backbone(g: Graph, byId: map<string, nat>) returns (steps: seq<Step>)
    requires Indexes(byId, g)
    ensures steps == Recovered(g, byId, g.start, GUARD)
  {
    hide Recovered, StepOf, Onward;
    steps := [];
    var cur := g.start;
    var guard := 0;
    while guard < 64 && cur != "" && cur in byId
      invariant guard <= 64
      invariant Recovered(g, byId, g.start, GUARD) == steps + Recovered(g, byId, cur, GUARD - guard)
    {
      var n := g.nodes[byId[cur]];
      RecoveredCons(g, byId, steps, cur, GUARD - guard);
      steps := steps + [StepOf(n)];
      cur := Onward(n);
      guard := guard + 1;
    }
    RecoveredStop(g, byId, cur, GUARD - guard);
  }

  lemma {:induction false} RecoveredStop(g: Graph, m: map<string, nat>, id: string, guard: nat)
    requires Indexes(m, g) && (guard == 0 || id == "" || id !in m)
    ensures Recovered(g, m, id, guard) == []
  {
  }

  lemma {:induction false} RecoveredCons(g: Graph, m: map<string, nat>, before: seq<Step>, id: string, guard: nat)
    requires Indexes(m, g) && guard > 0 && id != "" && id in m
    ensures var n := g.nodes[m[id]];
            before + Recovered(g, m, id, guard) == before + [StepOf(n)] + Recovered(g, m, Onward(n), guard - 1)
  {
    var n := g.nodes[m[id]];
    assert Recovered(g, m, id, guard) == [StepOf(n)] + Recovered(g, m, Onward(n), guard - 1);
  }

  /** The back-translation of step i of a compiled and stored list. */
  function Again(steps: seq<Step>, i: nat): Step
    requires i < |steps|
  {
    StepOf(StoredNode(NodeOf(steps, i)))
  }

  /** Nothing that has a default is missing or zero. */
  predicate Explicit(b: Body<int>) {
    match b
    case Script(_, lang, _, timeout) => lang != "" && timeout != 0
    case Check(_, _, _, op, threshold, timeout) => op != "" && threshold != 0 && timeout != 0
    case Notify(_, _) => true
  }

  predicate ExplicitTrigger(t: Trigger<int>) {
    t.op != "" && t.threshold != 0
  }

  /** What a name is sent as is sent again as it is. */
  lemma LabelStays(name: string, default: string, default': string)
    requires Trimmed(default) && default != ""
    ensures Label(Label(name, default), default') == Label(name, default) != ""
    ensures Label(name, default) == name <==> name == default || (Trimmed(name) && name != "")
  {
  }

  /** A body survives being sent, stored and filled in, and sent again, if and only if it
      is explicit; its name survives the first time as well if it is tidy. */
  lemma AgainBody(b: Body<int>)
    ensures Sent(Filled(StoredBody(Sent(b)))) == Sent(b) <==> Explicit(b)
    ensures Explicit(b) && Trimmed(b.name) && b.name != "" ==> Filled(StoredBody(Sent(b))) == b
    ensures Filled(StoredBody(Sent(b))).Check? <==> b.Check?
  {
    hide Trim, Trimmed, Label, Condition;
    var again := Filled(StoredBody(Sent(b)));
    DefaultNameTrimmed(b);
    LabelStays(b.name, DefaultName(b), DefaultName(again));
  }

  lemma AgainTrigger(t: Trigger<int>)
    ensures var again := FilledTrigger(StoredTrigger(SentTrigger(t)));
            && (SentTrigger(again) == SentTrigger(t) <==> ExplicitTrigger(t))
            && (ExplicitTrigger(t) && Trimmed(t.name) && t.name != "" ==> again == t)
  {
    hide Trim, Trimmed, Label, Condition;
    var again := FilledTrigger(StoredTrigger(SentTrigger(t)));
    assert "when "[0] == 'w';
    ConditionTrimmed("when ", t.metric, t.op, t.threshold);
    LabelStays(t.name, "when " + Condition(t.metric, t.op, t.threshold),
               "when " + Condition(again.metric, again.op, again.threshold));
  }

  lemma {:induction false} SameIds(a: seq<Node>, b: seq<Node>)
    requires |a| == |b| && forall k :: 0 <= k < |a| ==> a[k].id == b[k].id
    ensures ById(a) == ById(b)
  {
    if a != [] {
      SameIds(a[..|a| - 1], b[..|b| - 1]);
    }
  }

  /** Does the backbone go on past step i? */
  predicate BackboneOn(steps: seq<Step>, i: nat)
    requires i < |steps|
  {
    i + 1 < |steps| && (steps[i].body.Check? ==> GoesOn(steps[i].whenTrue, Next))
  }

  /** How many steps the backbone from step i has, at most `guard`. */
  function Kept(steps: seq<Step>, i: nat, guard: nat): nat
    decreases guard
  {
    if guard == 0 || i >= |steps| then 0
    else 1 + (if BackboneOn(steps, i) then Kept(steps, i + 1, guard - 1) else 0)
  }

  lemma {:induction false} KeptAll(steps: seq<Step>, i: nat, guard: nat)
    requires i <= |steps|
    ensures Kept(steps, i, guard) <= |steps| - i && Kept(steps, i, guard) <= guard
    ensures Kept(steps, i, guard) == |steps| - i
            <==> (guard >= |steps| - i && forall k :: i <= k < |steps| - 1 ==> BackboneOn(steps, k))
    decreases guard
  {
    if guard > 0 && i < |steps| {
      KeptAll(steps, i + 1, guard - 1);
    }
  }

  ghost predicate ReadsBack(steps: seq<Step>, i: nat, guard: nat, r: seq<Step>) {
    && |r| == Kept(steps, i, guard) && i + |r| <= |steps|
    && forall j :: 0 <= j < |r| ==> r[j] == Again(steps, i + j)
  }

  lemma CompiledAt(steps: seq<Step>, g: Graph, m: map<string, nat>, i: nat)
    requires Compiled(steps, g, m) && i < |steps|
    ensures |g.nodes| == |steps| && g.nodes[i] == NodeOf(steps, i) && "" !in m && Indexes(m, g)
    ensures StepId(i) != "" && StepId(i) in m && m[StepId(i)] == i
  {
    StepIdUnique(i, i);
  }

  lemma {:induction false} RecoveredBuilt(steps: seq<Step>, g: Graph, m: map<string, nat>, i: nat, guard: nat)
    requires Compiled(steps, g, m) && i < |steps|
    ensures ReadsBack(steps, i, guard, Recovered(Stored(g), m, StepId(i), guard))
    decreases guard
  {
    hide StepId, Sent, StoredBody, Filled, Compiled;
    if guard > 0 {
      CompiledAt(steps, g, m, i);
      TargetLeads(steps, g, m, i, steps[i].whenTrue, Next);
      var next := Onward(NodeOf(steps, i));
      assert Stored(g).nodes[i] == StoredNode(NodeOf(steps, i)) && Onward(StoredNode(NodeOf(steps, i))) == next;
      if BackboneOn(steps, i) {
        RecoveredBuilt(steps, g, m, i + 1, guard - 1);
      }
      ReadsBackCons(steps, i, guard, Recovered(Stored(g), m, next, guard - 1));
    }
  }

  lemma ReadsBackCons(steps: seq<Step>, i: nat, guard: nat, rest: seq<Step>)
    requires i < |steps| && guard > 0
    requires if BackboneOn(steps, i) then ReadsBack(steps, i + 1, guard - 1, rest) else rest == []
    ensures ReadsBack(steps, i, guard, [Again(steps, i)] + rest)
  {
    hide Again, BackboneOn;
    var r := [Again(steps, i)] + rest;
    assert |r| == Kept(steps, i, guard);
    forall j | 0 <= j < |r|
      ensures i + j < |steps| && r[j] == Again(steps, i + j)
    {
      if j > 0 {
        assert r[j] == rest[j - 1] == Again(steps, (i + 1) + (j - 1));
      }
    }
  }

  /** Opening a stored composer, in full. */
  lemma OpenedStored(c: Composer) returns (r: Composer)
    ensures r == Opened(Stored(Build(c)))
    ensures r.trigger == FilledTrigger(Stored(Build(c)).trigger)
    ensures |r.steps| <= |c.steps| && forall k :: 0 <= k < |r.steps| ==> r.steps[k] == Again(c.steps, k)
    ensures |r.steps| == |c.steps| <==>
            (|c.steps| <= GUARD && forall k :: 0 <= k < |c.steps| - 1 ==> BackboneOn(c.steps, k))
  {
    hide Again, BackboneOn, Kept, Compiled, Build, Recovered, StoredBody, ById, FilledTrigger;
    var g, m := BuildCompiles(c);
    SameIds(g.nodes, Stored(g).nodes);
    CompiledIndexes(c.steps, g, m);
    r := Composer(FilledTrigger(Stored(g).trigger), Recovered(Stored(g), m, g.start, GUARD));
    KeptAll(c.steps, 0, GUARD);
    if c.steps == [] {
      RecoveredStop(Stored(g), m, "", GUARD);
    } else {
      RecoveredBuilt(c.steps, g, m, 0, GUARD);
    }
  }

  lemma CompiledIndexes(steps: seq<Step>, g: Graph, m: map<string, nat>)
    requires Compiled(steps, g, m)
    ensures Indexes(m, g) && Indexes(m, Stored(g))
  {
  }

  predicate TidyName(name: string) {
    Trimmed(name) && name != ""
  }

  /** WHAT COMES BACK of a step that was sent and stored: all its fields, but for what was
      empty or zero. */
  lemma FieldsComeBack(b: Body<int>)
    ensures match (b, Filled(StoredBody(Sent(b))))
            case (Script(_, lang, script, timeout), Script(_, lang', script', timeout')) =>
              && lang' == (if lang == "" then "sh" else lang) && script' == script
              && timeout' == (if timeout == 0 then 300 else timeout)
            case (Check(_, metric, source, op, threshold, timeout),
                  Check(_, metric', source', op', threshold', timeout')) =>
              && metric' == metric && source' == source && op' == (if op == "" then ">" else op)
              && threshold' == (if threshold == 0 then 90 else threshold)
              && timeout' == (if timeout == 0 then 300 else timeout)
            case (Notify(_, message), Notify(_, message')) => message' == message
            case _ => false
  {
    hide Label, DefaultName;
  }

  /** And of the trigger. */
  lemma TriggerComesBack(t: Trigger<int>)
    ensures var t' := FilledTrigger(StoredTrigger(SentTrigger(t)));
            && t'.metric == t.metric && t'.source == t.source && t'.op == (if t.op == "" then ">" else t.op)
            && t'.threshold == (if t.threshold == 0 then 90 else t.threshold)
  {
    hide Label, Condition;
  }

  /** Written out in full: a name, no field left to its default, and checks that go on with
      the next step when they hold (the last one ends) and end otherwise. */
  predicate Plain(steps: seq<Step>, i: nat)
    requires i < |steps|
  {
    var st := steps[i];
    && TidyName(st.body.name) && Explicit(st.body)
    && (if st.body.Check? then st.whenTrue == (if i + 1 < |steps| then Next else End) && st.whenFalse == End
        else st.whenTrue == Unset && st.whenFalse == Unset)
  }

  lemma PlainAgain(steps: seq<Step>, k: nat)
    requires k < |steps| && Plain(steps, k)
    ensures Again(steps, k) == steps[k] && (k < |steps| - 1 ==> BackboneOn(steps, k))
  {
    hide Sent, Filled, StoredBody, StepId, Explicit, Trimmed;
    AgainBody(steps[k].body);
    StepIdUnique(k + 1, k + 1);
  }

  /** OPENED AS WRITTEN. A plain composer of at most 64 steps comes back as it was. */
  lemma PlainComesBack(c: Composer)
    requires TidyName(c.trigger.name) && ExplicitTrigger(c.trigger)
    requires |c.steps| <= 64 && forall i :: 0 <= i < |c.steps| ==> Plain(c.steps, i)
    ensures Opened(Stored(Build(c))) == c
  {
    hide Again, BackboneOn, Plain, Opened, SentTrigger, StoredTrigger, FilledTrigger, Trimmed;
    var r := OpenedStored(c);
    AgainTrigger(c.trigger);
    forall k | 0 <= k < |c.steps|
      ensures Again(c.steps, k) == c.steps[k] && (k < |c.steps| - 1 ==> BackboneOn(c.steps, k))
    {
      PlainAgain(c.steps, k);
    }
  }

  /** The composer survives being stored and opened again. */
  ghost predicate Stable(c: Composer) {
    && ExplicitTrigger(c.trigger)
    && |c.steps| <= 64
    && forall i :: 0 <= i < |c.steps| ==> StableStep(c.steps, i)
  }

  /** Language, operator, threshold and timeout are given and not zero; a check continues
      with the next step, and otherwise does anything but that, unless there is no
      next step. */
  predicate StableStep(steps: seq<Step>, i: nat)
    requires i < |steps|
  {
    var st := steps[i];
    var last := i + 1 == |steps|;
    && Explicit(st.body)
    && (st.body.Check? ==>
          && !st.whenTrue.Jump? && (last || GoesOn(st.whenTrue, Next))
          && (last || !GoesOn(st.whenFalse, End)))
  }

  lemma StableStepExactly(steps: seq<Step>, i: nat)
    requires i < |steps|
    requires i + 1 < |steps| ==> BackboneOn(steps, i)
    ensures StableStep(steps, i) <==>
            (var st, n := Again(steps, i), |steps|;
             NodeOf(steps, i) == Node(StepId(i), Sent(st.body),
               if st.body.Check? then Branch(Target(n, i, st.whenTrue, Next), Target(n, i, st.whenFalse, End))
               else Linear(NextId(n, i))))
  {
    hide Sent, Filled, StoredBody, StepId, Explicit;
    AgainBody(steps[i].body);
    StepIdUnique(i + 1, i + 1);
  }

  /** STORE AND REOPEN, EXACTLY. Compiling the composer recovered from what the server stored
      gives the same graph if and only if it is stable: at most 64 steps, no number
      of the trigger or a step that is zero, and each check going on with the next
      step when it holds and not when it fails. */
  lemma ReopenExactly(c: Composer)
    ensures Build(Opened(Stored(Build(c)))) == Build(c) <==> Stable(c)
  {
    hide Again, BackboneOn, Opened, SentTrigger, StoredTrigger, FilledTrigger, ExplicitTrigger, StableStep,
         StepId, Sent, StoredBody;
    var g, steps := Build(c), c.steps;
    var r := OpenedStored(c);
    AgainTrigger(c.trigger);
    if |r.steps| == |steps| {
      SameNodes(c, r);
    } else {
      assert |Build(r).nodes| != |g.nodes|;
      StableBackbone(c);
    }
  }

  lemma SameNodes(c: Composer, r: Composer)
    requires |r.steps| == |c.steps| <= GUARD
    requires forall k :: 0 <= k < |c.steps| ==> r.steps[k] == Again(c.steps, k)
    requires forall k :: 0 <= k < |c.steps| - 1 ==> BackboneOn(c.steps, k)
    ensures Build(r).nodes == Build(c).nodes <==> forall i :: 0 <= i < |c.steps| ==> StableStep(c.steps, i)
    ensures Build(r).start == Build(c).start
  {
    hide Again, BackboneOn, StableStep, StepId, Sent;
    forall i: nat | i < |c.steps|
      ensures StableStep(c.steps, i) <==> Build(r).nodes[i] == Build(c).nodes[i]
    {
      assert r.steps[i] == Again(c.steps, i);
      StableStepExactly(c.steps, i);
    }
  }

  lemma StableBackbone(c: Composer)
    ensures Stable(c) ==> forall k :: 0 <= k < |c.steps| - 1 ==> BackboneOn(c.steps, k)
  {
    if Stable(c) {
      forall k | 0 <= k < |c.steps| - 1
        ensures BackboneOn(c.steps, k)
      {
        assert StableStep(c.steps, k);
      }
    }
  }

  /** A check that goes on in both cases, and a step behind it. */
  function ElseNext(trigger: Trigger<int>, a: Body<int>, b: Body<int>): Composer {
    Composer(trigger, [Step(a, Next, Next), Step(b, Next, End)])
  }

  lemma OpenedElseNext(trigger: Trigger<int>, a: Body<int>, b: Body<int>) returns (r: Composer)
    requires a.Check?
    ensures r == Opened(Stored(Build(ElseNext(trigger, a, b))))
    ensures |r.steps| == 2 && r.steps[0].body.Check? && r.steps[0].whenFalse == Jump(StepId(1))
  {
    hide Build, Stored, Opened, Sent, Filled, StoredBody, StepId;
    var c := ElseNext(trigger, a, b);
    r := OpenedStored(c);
    assert BackboneOn(c.steps, 0);
    StepIdUnique(1, 1);
    AgainBody(a);
    assert r.steps[0] == Again(c.steps, 0);
  }

  lemma ElseNextStored(trigger: Trigger<int>, a: Body<int>, b: Body<int>)
    requires a.Check?
    ensures var c := ElseNext(trigger, a, b);
            JumpFree(c.steps, 0) && (Accepted(Build(c)) <==> FieldsOk(Build(c)))
  {
    hide Build, Accepted, FieldsOk;
    var c := ElseNext(trigger, a, b);
    AcceptedExactly(c);
    assert JumpFree(c.steps, 2);
    assert JumpFree(c.steps, 1);
  }

  /** A check that goes on in both cases is accepted if its fields are, but what is
      recovered from it names the next step by id, and the graph built from that
      has a dangling edge and is refused. */
  lemma ElseNextCut(trigger: Trigger<int>, a: Body<int>, b: Body<int>)
    requires a.Check?
    ensures var c := ElseNext(trigger, a, b);
            var again := Build(Opened(Stored(Build(c))));
            && JumpFree(c.steps, 0) && (Accepted(Build(c)) <==> FieldsOk(Build(c)))
            && |again.nodes| == 2 && !EdgesKnown(again) && !Accepted(again)
  {
    hide Accepted, FieldsOk, EdgesKnown, Opened, Stored, JumpFree;
    ElseNextStored(trigger, a, b);
    var r := OpenedElseNext(trigger, a, b);
    EdgesKnownExactly(r);
    AcceptedExactly(r);
    assert Picks(r.steps[0]);
  }

  /** A check for more than zero, with no time to wait, comes back as one for more than 90
      that waits 300 seconds. */
  lemma ZeroComesBackAsDefault(trigger: Trigger<int>) returns (r: Composer)
    ensures var check := Check("c", "errors", "", ">", 0, 0);
            r == Opened(Stored(Build(Composer(trigger, [Step(check, Next, End)]))))
    ensures r.steps == [Step(Check("c", "errors", "", ">", 90, 300), End, End)]
  {
    var c := Composer(trigger, [Step(Check("c", "errors", "", ">", 0, 0), Next, End)]);
    r := OpenedStored(c);
    assert "c"[0] == 'c' && Trimmed("c");
    assert Again(c.steps, 0) == Step(Check("c", "errors", "", ">", 90, 300), End, End);
  }

  /** The steps of this composer are stable, but its trigger fires above 0 errors and comes
      back firing above 90. */
  lemma ZeroTriggerComesBackAsDefault() returns (c: Composer, r: Composer)
    ensures c == Composer(Trigger("t", "errors", "", ">", 0), [Step(Notify("n", "x"), Unset, Unset)])
    ensures StableStep(c.steps, 0) && r == Opened(Stored(Build(c)))
    ensures r.trigger == Trigger("t", "errors", "", ">", 90) && r.steps == c.steps && Build(r) != Build(c)
  {
    c := Composer(Trigger("t", "errors", "", ">", 0), [Step(Notify("n", "x"), Unset, Unset)]);
    hide Opened, StepId;
    r := OpenedStored(c);
    ReopenExactly(c);
    assert Trimmed("t") && Trimmed("n");
    PlainAgain(c.steps, 0);
  }
}
