/** The command channel: one session's downlink reader, the capability gate and the
result frames it sends. Commands run one after the other in the reader. */
module Uplink {
  import opened Basics
  import opened Files
  import opened Caps
  import opened PushSession

  datatype Status = Received | Refused | Unsupported | Succeeded | Failed | TimedOut

  datatype Frame = Result(id: string, status: Status) | FileFrame(chunk: Chunk)

  /** What a session leaves behind, in order: frames that got out, and actions that
      were carried out under a capability. */
  datatype Entry = Sent(frame: Frame) | Did(cap: Cap, id: string)

  datatype ScriptRun = ScriptTimeout | ScriptError | Exit(code: int)

  /** How a chunked push stops waiting: the context ends, or the other goroutine
      abandons it because the stream dropped. */
  datatype WaitEnd = ContextDone | StreamDropped

  /** What the machine answers while one command is handled. */
  datatype World = World(
    script: ScriptRun,
    rebootCancelled: bool,
    info: FileInfo,
    content: Bytes,
    turns: seq<Turn>,
    inlineReplaced: bool,
    inlineOk: bool,
    startOk: bool,
    waitEnd: WaitEnd,
    dest: Option<Bytes>)

  datatype Down =
    | Cmd(cmd: Command, world: World)
    | SessionControl
    | ChunkDown(chunk: Chunk, io: Io)
    | Ack(jwt: string)

  // ---- what one command leaves behind ----

  function Sents(cs: seq<Chunk>): (es: seq<Entry>)
    ensures |es| == |cs| && forall i :: 0 <= i < |cs| ==> es[i] == Sent(FileFrame(cs[i]))
  {
    seq(|cs|, i requires 0 <= i < |cs| => Sent(FileFrame(cs[i])))
  }

  function ScriptStatus(w: World): Status {
    match w.script
    case ScriptTimeout => TimedOut
    case ScriptError => Failed
    case Exit(code) => if code != 0 then Failed else Succeeded
  }

  function PushStatus(w: World, inlined: bool): Status {
    if inlined then (if w.inlineOk then Succeeded else Failed)
    else if !w.startOk then Failed
    else if w.waitEnd.ContextDone? then Failed
    else Succeeded
  }

  /** A final frame, unless the stream refused it. */
  ghost predicate Ends(es: seq<Entry>, before: seq<Entry>, id: string, status: Status, alive: bool) {
    es == if alive then before + [Sent(Result(id, status))] else before
  }

  /** Does a pull of this world read a file of at most 256 MiB up to its end, and send it? */
  ghost predicate PullFinishes(w: World) {
    w.info.Regular? && w.info.size <= 268435456 && exists m: nat :: Finishes(w.content, w.turns, m)
  }

  /** The chunks of a pull: a success if and only if it came to its end, and then with a
      final chunk; the whole content if nothing interrupted it. */
  ghost predicate PullOk(w: World, id: string, cs: seq<Chunk>, status: Status) {
    && status == (if PullFinishes(w) then Succeeded else Failed)
    && (w.info.Regular? && w.info.size <= 268435456 && ReadsAll(w.content, w.turns) ==>
          PullFinishes(w) && Transfer(id, 0, w.content, cs))
    && (exists k: nat :: k <= |w.content| &&
          if PullFinishes(w) then Transfer(id, 0, w.content[..k], cs) else Partial(id, 0, w.content[..k], cs))
  }

  /** What was sent, and what the pull came to. */
  lemma PullFits(w: World, id: string, cs: seq<Chunk>, r: Sent)
    requires !w.info.Regular? || w.info.size > 268435456 ==> cs == [] && r == SendError
    requires w.info.Regular? && w.info.size <= 268435456 ==>
               exists m: nat :: PullOutcome(id, w.info, w.content, w.turns, cs, r, m)
    requires w.info.Regular? && w.info.size <= 268435456 && ReadsAll(w.content, w.turns) ==>
               Transfer(id, 0, w.content, cs) && r.Finished?
    ensures PullOk(w, id, cs, if r.Finished? then Succeeded else Failed)
  {
    hide Transfer, Partial, ReadsAll, Finishes, BreaksOff, PullOutcome;
    if w.info.Regular? && w.info.size <= 268435456 {
      var m: nat :| PullOutcome(id, w.info, w.content, w.turns, cs, r, m);
      OutcomeCarries(id, w.info, w.content, w.turns, cs, r, m);
      if !r.Finished? {
        NoOtherOutcome(w.content, w.turns, m);
      }
    } else {
      NothingPartial(id, w.content);
    }
  }

  lemma NothingPartial(cmd: string, content: Bytes)
    ensures Partial(cmd, 0, content[..0], [])
  {
  }

  lemma NoOtherOutcome(content: Bytes, ts: seq<Turn>, m: nat)
    requires BreaksOff(content, ts, m)
    ensures !exists m': nat :: Finishes(content, ts, m')
  {
    hide GoesOnUntil, EndsAt, BreaksOff;
    forall m': nat | Finishes(content, ts, m')
      ensures false
    {
      OneOutcome(content, ts, m, m');
    }
  }

  ghost predicate PullBody(w: World, id: string, body: seq<Entry>, alive: bool) {
    exists cs, status :: PullOk(w, id, cs, status) && Ends(body, [Did(CapFilePull, id)] + Sents(cs), id, status, alive)
  }

  /** What follows RECEIVED. */
  ghost predicate BodyOk(cmd: Command, w: World, body: seq<Entry>, alive: bool) {
    match cmd.action
    case RunScript(_, scriptOk) =>
      if scriptOk then Ends(body, [Did(CapRunScript, cmd.id)], cmd.id, ScriptStatus(w), alive)
      else Ends(body, [], cmd.id, Failed, alive)
    case Reboot(_) =>
      || (!alive && body == [])
      || (!alive && w.rebootCancelled && body == [Sent(Result(cmd.id, Succeeded))])
      || (alive && !w.rebootCancelled && body == [Sent(Result(cmd.id, Succeeded)), Did(CapReboot, cmd.id)])
    case FilePull(_) => PullBody(w, cmd.id, body, alive)
    case FilePush(_, inlined, _) =>
      var did := if inlined && w.inlineReplaced then [Did(CapFilePush, cmd.id)] else [];
      Ends(body, did, cmd.id, PushStatus(w, inlined), alive)
    case _ => false
  }

  ghost predicate Granted(v: Verifier, cmd: Command) {
    ForCommand(cmd.action).Some?
    && Check(v, ForCommand(cmd.action).value.1, ForCommand(cmd.action).value.0, cmd.id) == Passed
  }

  /** Everything one command leaves behind; `alive` is whether the session goes on. */
  ghost predicate TraceOk(v: Verifier, cmd: Command, w: World, tr: seq<Entry>, alive: bool) {
    if ForCommand(cmd.action).None? then alive && (tr == [] || tr == [Sent(Result(cmd.id, Unsupported))])
    else if !Granted(v, cmd) then tr == if alive then [Sent(Result(cmd.id, Status.Refused))] else []
    else
      || (!alive && tr == [])
      || (tr != [] && tr[0] == Sent(Result(cmd.id, Received)) && BodyOk(cmd, w, tr[1..], alive))
  }

  /** Which frames of a command got out, if its `first` and `second` result frame do: a command
      is answered whenever its first frame gets out, and the session ends if and only if
      a frame of a command that is supported is lost, or the wait for a reboot
      is cancelled. */
  ghost predicate GetsOut(v: Verifier, cmd: Command, w: World, first: bool, second: bool, tr: seq<Entry>, alive: bool) {
    && (tr == [] <==> !first)
    && (alive <==>
          || ForCommand(cmd.action).None?
          || (first && (Granted(v, cmd) ==> second && !(cmd.action.Reboot? && w.rebootCancelled))))
    && (Granted(v, cmd) && cmd.action.Reboot? && first ==> (|tr| == 1 <==> !second))
  }

  lemma SilentTrace(v: Verifier, cmd: Command, w: World)
    requires Granted(v, cmd)
    ensures TraceOk(v, cmd, w, [], false)
  {
  }

  lemma Glue<T>(a: seq<T>, b: seq<T>, c: seq<T>)
    ensures a + b + c == a + (b + c)
  {
  }

  lemma TraceAccepted(v: Verifier, cmd: Command, w: World, body: seq<Entry>, alive: bool)
    requires Granted(v, cmd) && BodyOk(cmd, w, body, alive)
    ensures TraceOk(v, cmd, w, [Sent(Result(cmd.id, Received))] + body, alive)
  {
    var tr := [Sent(Result(cmd.id, Received))] + body;
    assert tr[1..] == body;
  }

  /** What acks change: whether the session was ever healthy, the token, and the calls
      of the change hook. */
  datatype Health = Healthy(acked: bool, jwt: string, hooks: seq<string>)

  function HealthAfter(h: Health, f: Down): Health {
    if f.Ack? then
      var (jwt, hooks) := Renewed(h.jwt, h.hooks, f.jwt);
      Healthy(true, jwt, hooks)
    else h
  }

  function HealthAfterAll(h: Health, frames: seq<Down>): Health {
    if frames == [] then h else HealthAfter(HealthAfterAll(h, frames[..|frames| - 1]), frames[|frames| - 1])
  }

  /** The renewal of the device token on an ack: adopted if non-empty, the hook fired
      only on a change. */
  function Renewed(jwt: string, hooks: seq<string>, tok: string): (string, seq<string>) {
    if tok == "" then (jwt, hooks) else (tok, if tok != jwt then hooks + [tok] else hooks)
  }

  class Reader {
    const verifier: Verifier
    /** `fate(k)`: does the k-th result frame get out? */
    const fate: nat -> bool
    var sends: nat
    var log: seq<Entry>
    var pushes: map<string, Session>
    var acked: bool
    var jwt: string
    var hooks: seq<string>

    ghost function Health(): Health
      reads this
    {
      Healthy(acked, jwt, hooks)
    }

    constructor (verifier: Verifier, fate: nat -> bool, jwt: string)
      ensures this.verifier == verifier && this.fate == fate && this.jwt == jwt
      ensures sends == 0 && log == [] && pushes == map[] && !acked && hooks == []
    {
      this.verifier, this.fate, this.jwt := verifier, fate, jwt;
      sends, log, pushes, acked, hooks := 0, [], map[], false, [];
    }

    method SendResult(id: string, status: Status) returns (ok: bool)
      modifies this`sends, this`log
      ensures ok == fate(old(sends)) && sends == old(sends) + 1
      ensures log == if ok then old(log) + [Sent(Result(id, status))] else old(log)
    {
      ok := fate(sends);
      sends := sends + 1;
      if ok {
        log := log + [Sent(Result(id, status))];
      }
    }

    method HandleCommand(cmd: Command, w: World) returns (tr: seq<Entry>, alive: bool)
      requires pushes == map[]
      modifies this`sends, this`log, this`pushes
      ensures log == old(log) + tr
      ensures TraceOk(verifier, cmd, w, tr, alive)
      ensures GetsOut(verifier, cmd, w, fate(old(sends)), fate(old(sends) + 1), tr, alive)
      ensures sends == old(sends) + (if Granted(verifier, cmd) && fate(old(sends)) then 2 else 1)
      ensures pushes == map[]
    {
      var need := ForCommand(cmd.action);
      if need.None? {
        tr, alive := Finish(cmd.id, Unsupported, []);
        alive := true;
      } else if Check(verifier, need.value.1, need.value.0, cmd.id) != Passed {
        tr, alive := Finish(cmd.id, Status.Refused, []);
      } else {
        tr, alive := Perform(cmd, w);
      }
    }

    /** A command whose token passed: RECEIVED, then the action. */
    method Perform(cmd: Command, w: World) returns (tr: seq<Entry>, alive: bool)
      requires Granted(verifier, cmd)
      requires pushes == map[]
      modifies this`sends, this`log, this`pushes
      ensures log == old(log) + tr
      ensures TraceOk(verifier, cmd, w, tr, alive)
      ensures GetsOut(verifier, cmd, w, fate(old(sends)), fate(old(sends) + 1), tr, alive)
      ensures sends == old(sends) + (if fate(old(sends)) then 2 else 1)
      ensures pushes == map[]
    {
      var received := SendResult(cmd.id, Received);
      if !received {
        SilentTrace(verifier, cmd, w);
        return [], false;
      }
      tr, alive := Execute(cmd, w, [Sent(Result(cmd.id, Received))]);
      Glue(old(log), [Sent(Result(cmd.id, Received))], tr[1..]);
    }

    /** The action; `tr` is the whole trace with what was `sent` before. */
    method Execute(cmd: Command, w: World, sent: seq<Entry>) returns (tr: seq<Entry>, alive: bool)
      requires Granted(verifier, cmd) && sent == [Sent(Result(cmd.id, Received))]
      requires pushes == map[]
      modifies this`sends, this`log, this`pushes
      ensures |tr| > 0 && log == old(log) + tr[1..] && tr == sent + tr[1..]
      ensures TraceOk(verifier, cmd, w, tr, alive)
      ensures GetsOut(verifier, cmd, w, true, fate(old(sends)), tr, alive) && sends == old(sends) + 1
      ensures pushes == map[]
    {
      var body;
      match cmd.action {
        case RunScript(_, scriptOk) =>
          body, alive := RunScriptCommand(cmd.id, scriptOk, w);
        case Reboot(_) =>
          body, alive := RebootCommand(cmd.id, w);
        case FilePull(_) =>
          body, alive := FilePullCommand(cmd.id, w);
        case FilePush(_, inlined, mode) =>
          body, alive := FilePushCommand(cmd.id, inlined, mode, w);
      }
      TraceAccepted(verifier, cmd, w, body, alive);
      tr := sent + body;
      assert tr[1..] == body;
    }

    method Finish(id: string, status: Status, did: seq<Entry>) returns (body: seq<Entry>, alive: bool)
      modifies this`sends, this`log
      ensures Ends(body, did, id, status, alive)
      ensures alive == fate(old(sends)) && sends == old(sends) + 1
      ensures log == old(log) + body
    {
      log := log + did;
      alive := SendResult(id, status);
      body := if alive then did + [Sent(Result(id, status))] else did;
    }

    method RunScriptCommand(id: string, scriptOk: bool, w: World) returns (body: seq<Entry>, alive: bool)
      modifies this`sends, this`log
      ensures log == old(log) + body
      ensures if scriptOk then Ends(body, [Did(CapRunScript, id)], id, ScriptStatus(w), alive)
              else Ends(body, [], id, Failed, alive)
      ensures alive == fate(old(sends)) && sends == old(sends) + 1
    {
      if !scriptOk {
        body, alive := Finish(id, Failed, []);
        return;
      }
      var status := Succeeded;
      match w.script {
        case ScriptTimeout => status := TimedOut;
        case ScriptError => status := Failed;
        case Exit(code) => if code != 0 { status := Failed; }
      }
      body, alive := Finish(id, status, [Did(CapRunScript, id)]);
    }

    method RebootCommand(id: string, w: World) returns (body: seq<Entry>, alive: bool)
      modifies this`sends, this`log
      ensures log == old(log) + body
      ensures || (!alive && body == [])
              || (!alive && w.rebootCancelled && body == [Sent(Result(id, Succeeded))])
              || (alive && !w.rebootCancelled && body == [Sent(Result(id, Succeeded)), Did(CapReboot, id)])
      ensures (body == [] <==> !fate(old(sends))) && sends == old(sends) + 1
    {
      var ok := SendResult(id, Succeeded);
      if !ok {
        return [], false;
      }
      if w.rebootCancelled {
        return [Sent(Result(id, Succeeded))], false;
      }
      log := log + [Did(CapReboot, id)];
      return [Sent(Result(id, Succeeded)), Did(CapReboot, id)], true;
    }

    method FilePullCommand(id: string, w: World) returns (body: seq<Entry>, alive: bool)
      modifies this`sends, this`log
      ensures log == old(log) + body
      ensures PullBody(w, id, body, alive)
      ensures alive == fate(old(sends)) && sends == old(sends) + 1
    {
      var sent, r := SendPull(id, w.info, w.content, w.turns);
      var status := if r.Finished? then Succeeded else Failed;
      body, alive := Finish(id, status, [Did(CapFilePull, id)] + Sents(sent));
      PullFits(w, id, sent, r);
    }

    method FilePushCommand(id: string, inlined: bool, mode: string, w: World) returns (body: seq<Entry>, alive: bool)
      requires pushes == map[]
      modifies this`sends, this`log, this`pushes
      ensures log == old(log) + body
      ensures var did := if inlined && w.inlineReplaced then [Did(CapFilePush, id)] else [];
              Ends(body, did, id, PushStatus(w, inlined), alive)
      ensures alive == fate(old(sends)) && sends == old(sends) + 1
      ensures pushes == map[]
    {
      if inlined {
        var did := if w.inlineReplaced then [Did(CapFilePush, id)] else [];
        body, alive := Finish(id, if w.inlineOk then Succeeded else Failed, did);
        return;
      }
      if !w.startOk {
        body, alive := Finish(id, Failed, []);
        return;
      }
      var session := PushSession.Fresh(id, mode, w.dest);
      pushes := pushes[id := session];
      // The reader now waits; nobody else takes chunks off the stream.
      var ok;
      session, ok := AwaitPush(id, w.waitEnd);
      pushes := pushes - {id};
      assert session.replaced == 0 && session.dest == w.dest;
      body, alive := Finish(id, if ok then Succeeded else Failed, []);
    }

    /** The wait of a chunked push: nothing of it can end in a replaced file. */
    method AwaitPush(id: string, end: WaitEnd) returns (session: Session, ok: bool)
      requires id in pushes && pushes.Keys == {id} && !pushes[id].closed && !pushes[id].failed
      modifies this`pushes
      ensures pushes == if end.ContextDone? then old(pushes) else map[]
      ensures session == if end.ContextDone? then AfterTimeout(old(pushes)[id]) else AfterAbandon(old(pushes)[id])
      ensures ok <==> end.StreamDropped?
    {
      session := pushes[id];
      match end {
        case ContextDone =>
          session := session.(closed := true, tmpThere := false);
          return session, false;
        case StreamDropped =>
          session := session.(closed := true, tmpThere := false, doneCloses := session.doneCloses + 1);
          pushes := map[];
          return session, !session.failed;
      }
    }

    method RouteChunk(c: Chunk, io: Io)
      modifies this`pushes
      ensures pushes == if c.cmd in old(pushes) then old(pushes)[c.cmd := AfterChunk(old(pushes)[c.cmd], c, io)]
                        else old(pushes)
    {
      if c.cmd in pushes {
        pushes := pushes[c.cmd := AfterChunk(pushes[c.cmd], c, io)];
      }
    }

    method ApplyRenewedJwt(tok: string)
      modifies this`jwt, this`hooks
      ensures (jwt, hooks) == Renewed(old(jwt), old(hooks), tok)
    {
      if tok == "" {
        return;
      }
      var changed := tok != jwt;
      jwt := tok;
      if changed {
        hooks := hooks + [tok];
      }
    }

    /** One downlink frame. Only a command leaves a trace, and only a command can end
        the session; chunks find no push waiting for them. */
    method Take(f: Down) returns (tr: seq<Entry>, alive: bool)
      requires pushes == map[]
      modifies this
      ensures log == old(log) + tr && pushes == map[]
      ensures if f.Cmd? then TraceOk(verifier, f.cmd, f.world, tr, alive) else tr == [] && alive
      ensures f.Cmd? ==> GetsOut(verifier, f.cmd, f.world, fate(old(sends)), fate(old(sends) + 1), tr, alive)
      ensures Health() == HealthAfter(old(Health()), f)
    {
      tr, alive := [], true;
      match f {
        case Cmd(cmd, world) =>
          tr, alive := HandleCommand(cmd, world);
        case SessionControl =>
        case ChunkDown(c, io) =>
          RouteChunk(c, io);
        case Ack(tok) =>
          acked := true;
          if tok != "" {
            ApplyRenewedJwt(tok);
          }
      }
    }

    /** The downlink reader: frames in order until one ends the session. `n` frames
        were taken; `traces` are what the commands among them left behind. */
    method Serve(frames: seq<Down>) returns (n: nat, traces: seq<seq<Entry>>, alive: bool)
      requires pushes == map[]
      modifies this
      ensures n <= |frames| && (alive ==> n == |frames|)
      ensures log == old(log) + Flat(traces)
      ensures Served(verifier, frames[..n], traces, alive)
      ensures pushes == map[]
      ensures Health() == HealthAfterAll(old(Health()), frames[..n])
      ensures (forall k: nat :: fate(k)) && !(exists i :: 0 <= i < |frames| && RebootCutShort(frames[i])) ==> alive
    {
      hide TraceOk;
      n, traces, alive := 0, [], true;
      while n < |frames| && alive
        invariant n <= |frames|
        invariant log == old(log) + Flat(traces)
        invariant Served(verifier, frames[..n], traces, alive)
        invariant pushes == map[]
        invariant Health() == HealthAfterAll(old(Health()), frames[..n])
        invariant (forall k: nat :: fate(k)) && !(exists i :: 0 <= i < |frames| && RebootCutShort(frames[i])) ==> alive
        decreases |frames| - n
      {
        var f, tr := frames[n], [];
        tr, alive := Take(f);
        ServedStep(verifier, frames[..n], f, traces, tr, alive);
        HealthStep(old(Health()), frames[..n], f);
        assert frames[..n] + [f] == frames[..n + 1];
        if f.Cmd? {
          traces := traces + [tr];
        }
        n := n + 1;
      }
    }
  }

  /** A reboot whose wait is cut short by the end of the session. */
  predicate RebootCutShort(f: Down) {
    f.Cmd? && f.cmd.action.Reboot? && f.world.rebootCancelled
  }

  function Flat(traces: seq<seq<Entry>>): seq<Entry> {
    if traces == [] then [] else Flat(traces[..|traces| - 1]) + traces[|traces| - 1]
  }

  /** One trace per command taken, in order; only the last may have been cut off. */
  ghost predicate Served(v: Verifier, frames: seq<Down>, traces: seq<seq<Entry>>, alive: bool)
    decreases |frames|
  {
    if frames == [] then traces == [] && alive
    else
      var f, before := frames[|frames| - 1], frames[..|frames| - 1];
      if f.Cmd? then
        && traces != [] && TraceOk(v, f.cmd, f.world, traces[|traces| - 1], alive)
        && Served(v, before, traces[..|traces| - 1], true)
      else alive && Served(v, before, traces, true)
  }

  lemma ServedStep(v: Verifier, taken: seq<Down>, f: Down, traces: seq<seq<Entry>>, tr: seq<Entry>, alive: bool)
    requires Served(v, taken, traces, true)
    requires if f.Cmd? then TraceOk(v, f.cmd, f.world, tr, alive) else tr == [] && alive
    ensures Served(v, taken + [f], if f.Cmd? then traces + [tr] else traces, alive)
    ensures Flat(if f.Cmd? then traces + [tr] else traces) == Flat(traces) + tr
  {
    assert (taken + [f])[..|taken|] == taken;
    assert (traces + [tr])[..|traces|] == traces;
  }

  lemma HealthStep(h: Health, taken: seq<Down>, f: Down)
    ensures HealthAfterAll(h, taken + [f]) == HealthAfter(HealthAfterAll(h, taken), f)
  {
    assert (taken + [f])[..|taken|] == taken;
  }

  // ---- what that means ----

  function Frames(es: seq<Entry>): seq<Frame> {
    if es == [] then []
    else Frames(es[..|es| - 1]) + (if es[|es| - 1].Sent? then [es[|es| - 1].frame] else [])
  }

  lemma {:induction false} FramesAppend(a: seq<Entry>, b: seq<Entry>)
    ensures Frames(a + b) == Frames(a) + Frames(b)
  {
    if b == [] {
      assert a + b == a;
    } else {
      assert (a + b)[..|a + b| - 1] == a + b[..|b| - 1];
      FramesAppend(a, b[..|b| - 1]);
    }
  }

  lemma FramesOne(e: Entry)
    ensures Frames([e]) == if e.Sent? then [e.frame] else []
  {
    assert [e][..0] == [];
    assert Frames([e][..0]) == [];
  }

  lemma {:induction false} FramesOfChunks(cs: seq<Chunk>)
    ensures |Frames(Sents(cs))| == |cs| && forall i :: 0 <= i < |cs| ==> Frames(Sents(cs))[i] == FileFrame(cs[i])
  {
    if cs != [] {
      FramesOfChunks(cs[..|cs| - 1]);
      assert Sents(cs)[..|cs| - 1] == Sents(cs[..|cs| - 1]);
    }
  }

  predicate Final(s: Status) {
    s == Succeeded || s == Failed || s == TimedOut
  }

  /** The protocol's grammar for one command. */
  ghost predicate Conversation(id: string, fs: seq<Frame>) {
    || fs == [Result(id, Unsupported)]
    || fs == [Result(id, Status.Refused)]
    || (&& |fs| >= 2 && fs[0] == Result(id, Received)
        && fs[|fs| - 1].Result? && fs[|fs| - 1].id == id && Final(fs[|fs| - 1].status)
        && forall i :: 0 < i < |fs| - 1 ==> fs[i].FileFrame? && fs[i].chunk.cmd == id)
  }

  lemma {:induction false} TransferCmd(cmd: string, from: nat, content: Bytes, cs: seq<Chunk>)
    requires Transfer(cmd, from, content, cs) || Partial(cmd, from, content, cs)
    ensures forall i :: 0 <= i < |cs| ==> cs[i].cmd == cmd
    decreases |cs|
  {
    if cs != [] && (|cs| > 1 || Partial(cmd, from, content, cs)) {
      TransferCmd(cmd, from + (1 as nat), content[|cs[0].data|..], cs[1..]);
    }
  }

  lemma NoFrames(did: seq<Entry>)
    requires |did| <= 1 && forall i :: 0 <= i < |did| ==> did[i].Did?
    ensures Frames(did) == []
  {
    if did != [] {
      FramesOne(did[0]);
      assert did == [did[0]];
    }
  }

  /** The frames of a trace that starts with RECEIVED. */
  lemma FramesAccepted(id: string, did: seq<Entry>, cs: seq<Chunk>, tail: seq<Entry>)
    requires |did| <= 1 && forall i :: 0 <= i < |did| ==> did[i].Did?
    ensures Frames([Sent(Result(id, Received))] + (did + Sents(cs) + tail))
            == [Result(id, Received)] + Frames(Sents(cs)) + Frames(tail)
  {
    hide Frames, Sents;
    var head := [Sent(Result(id, Received))];
    FramesOne(head[0]);
    NoFrames(did);
    FramesAppend(did, Sents(cs));
    assert Frames(did + Sents(cs)) == Frames(Sents(cs));
    FramesAppend(did + Sents(cs), tail);
    FramesAppend(head, did + Sents(cs) + tail);
    assert [Result(id, Received)] + (Frames(Sents(cs)) + Frames(tail))
        == [Result(id, Received)] + Frames(Sents(cs)) + Frames(tail);
  }

  lemma FullConversation(id: string, cs: seq<Chunk>, status: Status)
    requires Final(status) && forall i :: 0 <= i < |cs| ==> cs[i].cmd == id
    ensures Conversation(id, [Result(id, Received)] + Frames(Sents(cs)) + [Result(id, status)])
  {
    FramesOfChunks(cs);
  }

  /** Chunks of a command between RECEIVED and a final frame, or cut before it. */
  lemma AcceptedIsConversation(id: string, did: seq<Entry>, cs: seq<Chunk>, status: Status, sent: bool, tr: seq<Entry>)
    requires |did| <= 1 && forall i :: 0 <= i < |did| ==> did[i].Did?
    requires Final(status) && forall i :: 0 <= i < |cs| ==> cs[i].cmd == id
    requires tr == [Sent(Result(id, Received))] + (did + Sents(cs) + (if sent then [Sent(Result(id, status))] else []))
    ensures sent ==> Conversation(id, Frames(tr))
    ensures exists full :: Conversation(id, full) && Frames(tr) <= full
  {
    var tail := if sent then [Sent(Result(id, status))] else [];
    FramesAccepted(id, did, cs, tail);
    FullConversation(id, cs, status);
    FramesOne(Sent(Result(id, status)));
    var full := [Result(id, Received)] + Frames(Sents(cs)) + [Result(id, status)];
    assert Frames(tail) == if sent then [Result(id, status)] else [];
    assert Frames(tr) <= full;
  }

  lemma FramesTwo(a: Entry, b: Entry, c: Entry)
    requires a.Sent? && b.Sent? && c.Did?
    ensures Frames([a, b]) == [a.frame, b.frame] == Frames([a, b, c])
  {
    FramesOne(a);
    assert [a, b][..1] == [a] && [a, b, c][..2] == [a, b];
  }

  lemma RebootTrace(v: Verifier, cmd: Command, w: World, tr: seq<Entry>, alive: bool)
    requires TraceOk(v, cmd, w, tr, alive) && Granted(v, cmd) && cmd.action.Reboot? && tr != []
    ensures alive ==> Conversation(cmd.id, Frames(tr))
    ensures exists full :: Conversation(cmd.id, full) && Frames(tr) <= full
  {
    var r, s, d := Sent(Result(cmd.id, Received)), Sent(Result(cmd.id, Succeeded)), Did(CapReboot, cmd.id);
    var full := [r.frame, s.frame];
    assert Conversation(cmd.id, full);
    FramesOne(r);
    FramesTwo(r, s, d);
    assert tr == [r] + tr[1..];
    assert tr == [r] || tr == [r, s] || tr == [r, s, d];
    assert Frames(tr) <= full;
  }

  lemma AcceptedTrace(v: Verifier, cmd: Command, w: World, tr: seq<Entry>, alive: bool)
    requires TraceOk(v, cmd, w, tr, alive) && Granted(v, cmd) && !cmd.action.Reboot? && tr != []
    ensures alive ==> Conversation(cmd.id, Frames(tr))
    ensures exists full :: Conversation(cmd.id, full) && Frames(tr) <= full
  {
    var id, body := cmd.id, tr[1..];
    assert tr == [Sent(Result(id, Received))] + body;
    var none: seq<Chunk> := [];
    assert Sents(none) == [];
    match cmd.action
    case RunScript(_, scriptOk) =>
      var did, status := if scriptOk then [Did(CapRunScript, id)] else [], if scriptOk then ScriptStatus(w) else Failed;
      assert did + Sents(none) == did;
      AcceptedIsConversation(id, did, none, status, alive, tr);
    case FilePull(_) =>
      var cs, status :| PullOk(w, id, cs, status) && Ends(body, [Did(CapFilePull, id)] + Sents(cs), id, status, alive);
      var k: nat :| k <= |w.content| && (Transfer(id, 0, w.content[..k], cs) || Partial(id, 0, w.content[..k], cs));
      TransferCmd(id, 0, w.content[..k], cs);
      AcceptedIsConversation(id, [Did(CapFilePull, id)], cs, status, alive, tr);
    case FilePush(_, inlined, _) =>
      var did := if inlined && w.inlineReplaced then [Did(CapFilePush, id)] else [];
      assert did + Sents(none) == did;
      AcceptedIsConversation(id, did, none, PushStatus(w, inlined), alive, tr);
  }

  /** THE PROTOCOL. What a command puts on the wire is UNSUPPORTED, REFUSED, or
      RECEIVED, chunks of that command, one final status; or a beginning of that
      when a send fails, after which the session ends (an unsupported command
      whose answer is lost says nothing and the session goes on). */
  lemma Protocol(v: Verifier, cmd: Command, w: World, tr: seq<Entry>, alive: bool)
    requires TraceOk(v, cmd, w, tr, alive)
    ensures exists full :: Conversation(cmd.id, full) && Frames(tr) <= full
    ensures alive ==> Conversation(cmd.id, Frames(tr)) || (ForCommand(cmd.action).None? && Frames(tr) == [])
  {
    var refused, unsupported := [Result(cmd.id, Status.Refused)], [Result(cmd.id, Unsupported)];
    assert Conversation(cmd.id, refused) && Conversation(cmd.id, unsupported);
    FramesOne(Sent(refused[0]));
    FramesOne(Sent(unsupported[0]));
    if tr == [] {
      assert Frames(tr) == [] <= refused;
    } else if ForCommand(cmd.action).Some? && Granted(v, cmd) {
      if cmd.action.Reboot? { RebootTrace(v, cmd, w, tr, alive); } else { AcceptedTrace(v, cmd, w, tr, alive); }
    } else {
      assert Frames(tr) == refused || Frames(tr) == unsupported;
    }
  }

  ghost predicate LastIs(tr: seq<Entry>, id: string, status: Status) {
    tr != [] && tr[|tr| - 1] == Sent(Result(id, status))
  }

  /** What a command is told in the end, if all its frames get out. */
  ghost predicate ToldRight(v: Verifier, cmd: Command, w: World, tr: seq<Entry>) {
    var id := cmd.id;
    var received := Sent(Result(id, Received));
    if ForCommand(cmd.action).None? then tr == [] || tr == [Sent(Result(id, Unsupported))]
    else if !Granted(v, cmd) then tr == [Sent(Result(id, Status.Refused))]
    else
      && |tr| >= 2 && tr[0] == received
      && match cmd.action
         case RunScript(_, true) =>
           && |tr| == 3 && tr[1] == Did(CapRunScript, id)
           && (LastIs(tr, id, Succeeded) <==> w.script == Exit(0))
           && (LastIs(tr, id, TimedOut) <==> w.script == ScriptTimeout)
           && (LastIs(tr, id, Failed) <==> w.script != Exit(0) && w.script != ScriptTimeout)
         case RunScript(_, false) => tr == [received, Sent(Result(id, Failed))]
         case Reboot(_) => tr == [received, Sent(Result(id, Succeeded)), Did(CapReboot, id)]
         case FilePull(_) =>
           && tr[1] == Did(CapFilePull, id)
           && (LastIs(tr, id, Succeeded) <==> PullFinishes(w))
           && (LastIs(tr, id, Failed) <==> !PullFinishes(w))
         case FilePush(_, true, _) =>
           && (LastIs(tr, id, Succeeded) <==> w.inlineOk)
           && (LastIs(tr, id, Failed) <==> !w.inlineOk)
           && (Did(CapFilePush, id) in tr <==> w.inlineReplaced)
         case FilePush(_, false, _) =>
           && |tr| == 2
           && (LastIs(tr, id, Succeeded) <==> w.startOk && w.waitEnd == StreamDropped)
           && (LastIs(tr, id, Failed) <==> !w.startOk || w.waitEnd == ContextDone)
         case _ => false
  }

  /** FINAL STATUS, EXACTLY. If the session goes on after a command, its last frame says how
      the command went: refused or unsupported, or what the script, the reboot or the
      transfer came to. */
  lemma FinalStatus(v: Verifier, cmd: Command, w: World, tr: seq<Entry>)
    requires TraceOk(v, cmd, w, tr, true)
    ensures ToldRight(v, cmd, w, tr)
  {
    hide PullFinishes, Check, PullOk;
    if Granted(v, cmd) && cmd.action.FilePull? {
      var body, id := tr[1..], cmd.id;
      var cs, status :| PullOk(w, id, cs, status) && Ends(body, [Did(CapFilePull, id)] + Sents(cs), id, status, true);
      PullStatus(w, id, cs, status);
      assert body[0] == tr[1] && body[|body| - 1] == tr[|tr| - 1];
    } else if Granted(v, cmd) {
      assert tr == [tr[0]] + tr[1..];
      if cmd.action.FilePush? && cmd.action.inlined && w.inlineReplaced {
        assert tr[1] == Did(CapFilePush, cmd.id);
      }
    }
  }

  lemma PullStatus(w: World, id: string, cs: seq<Chunk>, status: Status)
    requires PullOk(w, id, cs, status)
    ensures status == if PullFinishes(w) then Succeeded else Failed
  {
  }

  /** THE GATE. Whatever was carried out for a command was carried out under the very
      capability its token was checked for, after RECEIVED went out; inventory and
      patch commands do nothing, and neither does a push that is not inline. */
  lemma Gate(v: Verifier, cmd: Command, w: World, tr: seq<Entry>, alive: bool, k: nat)
    requires TraceOk(v, cmd, w, tr, alive) && k < |tr| && tr[k].Did?
    ensures Granted(v, cmd)
    ensures tr[k].cap == ForCommand(cmd.action).value.0 && tr[k].id == cmd.id
    ensures k > 0 && tr[0] == Sent(Result(cmd.id, Received))
    ensures !cmd.action.CollectInventory? && !cmd.action.PatchQuery? && !cmd.action.PatchApply?
    ensures cmd.action.FilePush? ==> cmd.action.inlined
  {
    var body := tr[1..];
    if k > 0 {
      assert body[k - 1] == tr[k];
      if cmd.action.FilePull? && Granted(v, cmd) {
        var cs, status :| PullOk(w, cmd.id, cs, status)
                          && Ends(body, [Did(CapFilePull, cmd.id)] + Sents(cs), cmd.id, status, alive);
        assert forall j :: 0 < j < |body| ==> body[j].Sent?;
      }
    }
  }

  /** NO ACTION WITHOUT A GRANT. Everything a session carries out belongs to a command
      of that session whose token passed for that capability and id. */
  lemma {:induction false} SessionGate(v: Verifier, frames: seq<Down>, traces: seq<seq<Entry>>, alive: bool, k: nat)
    returns (i: nat)
    requires Served(v, frames, traces, alive) && k < |Flat(traces)| && Flat(traces)[k].Did?
    ensures i < |frames| && frames[i].Cmd? && Granted(v, frames[i].cmd)
    ensures Flat(traces)[k] == Did(ForCommand(frames[i].cmd.action).value.0, frames[i].cmd.id)
    decreases |frames|
  {
    i := |frames| - 1;
    var f, n := frames[i], |traces| - 1;
    if f.Cmd? && k >= |Flat(traces[..n])| {
      Gate(v, f.cmd, f.world, traces[n], alive, k - |Flat(traces[..n])|);
    } else {
      i := SessionGate(v, frames[..i], if f.Cmd? then traces[..n] else traces, true, k);
    }
  }

  /** How many of the frames are commands. */
  function Commands(frames: seq<Down>): nat {
    if frames == [] then 0
    else Commands(frames[..|frames| - 1]) + (if frames[|frames| - 1].Cmd? then 1 else 0)
  }

  lemma {:induction false} OneTraceEach(v: Verifier, frames: seq<Down>, traces: seq<seq<Entry>>, alive: bool)
    requires Served(v, frames, traces, alive)
    ensures |traces| == Commands(frames)
    decreases |frames|
  {
    hide TraceOk;
    if frames != [] {
      var n := |traces| - 1;
      OneTraceEach(v, frames[..|frames| - 1], if frames[|frames| - 1].Cmd? then traces[..n] else traces, true);
    }
  }

  /** THE PROTOCOL OF A SESSION. What the j-th command of a session puts on the wire is the
      conversation about that command, or a beginning of it if the session ended
      there; only an unsupported command may go without any answer. */
  lemma {:induction false} SessionProtocol(v: Verifier, frames: seq<Down>, traces: seq<seq<Entry>>, alive: bool, j: nat)
    returns (i: nat)
    requires Served(v, frames, traces, alive) && j < |traces|
    ensures i < |frames| && frames[i].Cmd? && Commands(frames[..i]) == j
    ensures exists full :: Conversation(frames[i].cmd.id, full) && Frames(traces[j]) <= full
    ensures j < |traces| - 1 || alive ==>
              || Conversation(frames[i].cmd.id, Frames(traces[j]))
              || (ForCommand(frames[i].cmd.action).None? && Frames(traces[j]) == [])
    ensures j < |traces| - 1 || alive ==> ToldRight(v, frames[i].cmd, frames[i].world, traces[j])
    decreases |frames|
  {
    hide TraceOk, Conversation, Frames, ToldRight;
    i := |frames| - 1;
    var f, n := frames[i], |traces| - 1;
    if f.Cmd? && j == n {
      OneTraceEach(v, frames[..i], traces[..n], true);
      Protocol(v, f.cmd, f.world, traces[n], alive);
      if alive {
        FinalStatus(v, f.cmd, f.world, traces[n]);
      }
    } else {
      var m := i;
      i := SessionProtocol(v, frames[..m], if f.Cmd? then traces[..n] else traces, true, j);
      assert frames[..m][..i] == frames[..i];
    }
  }

  /** ONE TOKEN, ONE ACTION. All that a session carries out under one token is under one
      capability, on this device and, for commands that have an id, under one id. */
  lemma OneTokenOneAction(v: Verifier, frames: seq<Down>, traces: seq<seq<Entry>>, alive: bool, k: nat, k': nat)
    returns (i: nat, i': nat)
    requires Served(v, frames, traces, alive)
    requires k < |Flat(traces)| && Flat(traces)[k].Did? && k' < |Flat(traces)| && Flat(traces)[k'].Did?
    ensures i < |frames| && frames[i].Cmd? && Granted(v, frames[i].cmd) && Flat(traces)[k].id == frames[i].cmd.id
    ensures i' < |frames| && frames[i'].Cmd? && Granted(v, frames[i'].cmd) && Flat(traces)[k'].id == frames[i'].cmd.id
    ensures ForCommand(frames[i].cmd.action).value.1 == ForCommand(frames[i'].cmd.action).value.1 ==>
              && Flat(traces)[k].cap == Flat(traces)[k'].cap
              && (Flat(traces)[k].id != "" && Flat(traces)[k'].id != "" ==> Flat(traces)[k] == Flat(traces)[k'])
  {
    hide Served, Flat;
    i := SessionGate(v, frames, traces, alive, k);
    i' := SessionGate(v, frames, traces, alive, k');
    var need, need' := ForCommand(frames[i].cmd.action).value, ForCommand(frames[i'].cmd.action).value;
    if need.1 == need'.1 {
      TokenScope(v, need.1, need.0, frames[i].cmd.id, need'.0, frames[i'].cmd.id);
    }
  }

  /** The last of the tokens, or `jwt` if there is none. */
  function Latest(jwt: string, hooks: seq<string>): string {
    if hooks == [] then jwt else hooks[|hooks| - 1]
  }

  /** A list of tokens, beginning after `jwt`, in which each is a change. */
  ghost predicate Changes(jwt: string, hooks: seq<string>) {
    forall k :: 0 <= k < |hooks| ==> hooks[k] != "" && hooks[k] != Latest(jwt, hooks[..k])
  }

  ghost predicate FromAcks(frames: seq<Down>, hooks: seq<string>) {
    forall k :: 0 <= k < |hooks| ==> Ack(hooks[k]) in frames
  }

  /** What the hook has been told: each call is a change, each token came in an ack, and
      the last is the token in use. */
  ghost predicate HooksTell(jwt: string, frames: seq<Down>, h: Health) {
    Changes(jwt, h.hooks) && FromAcks(frames, h.hooks) && h.jwt == Latest(jwt, h.hooks)
  }

  lemma OneMoreChange(jwt: string, hooks: seq<string>, tok: string)
    requires Changes(jwt, hooks) && tok != "" && tok != Latest(jwt, hooks)
    ensures Changes(jwt, hooks + [tok]) && Latest(jwt, hooks + [tok]) == tok
  {
    forall k | 0 <= k < |hooks| + 1
      ensures (hooks + [tok])[k] != "" && (hooks + [tok])[k] != Latest(jwt, (hooks + [tok])[..k])
    {
      assert (hooks + [tok])[..k] == hooks[..k];
      assert hooks[..|hooks|] == hooks;
    }
  }

  lemma OneMoreAck(frames: seq<Down>, hooks: seq<string>, f: Down)
    requires FromAcks(frames, hooks)
    ensures FromAcks(frames + [f], hooks)
    ensures f.Ack? ==> FromAcks(frames + [f], hooks + [f.jwt])
  {
    assert forall x :: x in frames + [f] <==> x in frames || x == f;
  }

  lemma HooksTellStep(jwt: string, frames: seq<Down>, h: Health, f: Down)
    requires HooksTell(jwt, frames, h)
    ensures HooksTell(jwt, frames + [f], HealthAfter(h, f))
  {
    hide Changes, FromAcks, Latest;
    OneMoreAck(frames, h.hooks, f);
    if f.Ack? && f.jwt != "" && f.jwt != h.jwt {
      OneMoreChange(jwt, h.hooks, f.jwt);
    }
  }

  lemma {:induction false} AckedExactly(h: Health, frames: seq<Down>)
    ensures HealthAfterAll(h, frames).acked <==> h.acked || exists i :: 0 <= i < |frames| && frames[i].Ack?
  {
    if frames != [] {
      AckedExactly(h, frames[..|frames| - 1]);
    }
  }

  lemma TokenInUse(h: Health, frames: seq<Down>, i: nat)
    requires i < |frames| && frames[i].Ack? && frames[i].jwt != ""
    ensures HealthAfterAll(h, frames[..i + 1]).jwt == frames[i].jwt
  {
    assert frames[..i + 1][..i] == frames[..i];
  }

  /** RENEWALS. Over a whole session the change hook is called once for each change of the
      token and for nothing else; the session counts as acked if and only if an ack
      came; and right after an ack that carries a token that token is in use. */
  lemma {:induction false} Renewals(jwt: string, frames: seq<Down>)
    ensures HooksTell(jwt, frames, HealthAfterAll(Healthy(false, jwt, []), frames))
    ensures HealthAfterAll(Healthy(false, jwt, []), frames).acked <==> exists i :: 0 <= i < |frames| && frames[i].Ack?
    ensures forall i :: 0 <= i < |frames| && frames[i].Ack? && frames[i].jwt != "" ==>
              HealthAfterAll(Healthy(false, jwt, []), frames[..i + 1]).jwt == frames[i].jwt
  {
    hide HooksTell, HealthAfter;
    var h := Healthy(false, jwt, []);
    AckedExactly(h, frames);
    forall i | 0 <= i < |frames| && frames[i].Ack? && frames[i].jwt != ""
      ensures HealthAfterAll(h, frames[..i + 1]).jwt == frames[i].jwt
    {
      TokenInUse(h, frames, i);
    }
    if frames == [] {
      NothingTold(jwt);
    } else {
      var n := |frames| - 1;
      Renewals(jwt, frames[..n]);
      HooksTellStep(jwt, frames[..n], HealthAfterAll(h, frames[..n]), frames[n]);
      assert frames[..n] + [frames[n]] == frames;
    }
  }

  lemma NothingTold(jwt: string)
    ensures HooksTell(jwt, [], Healthy(false, jwt, []))
  {
  }
}
