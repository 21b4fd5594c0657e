/** Assembling a pushed file: one session, driven by Chunk, Wait and Abandon in
any order. Every method holds the session's lock throughout, so a run is a
sequence of them. */
module PushSession {
  import opened Basics
  import opened Files

  /** What the file system answers: how many bytes of a chunk get written, and
      whether close, rename and chmod succeed. */
  datatype Io = Io(written: nat, closeOk: bool, renameOk: bool, chmodOk: bool)

  /** `tmp` is the content of the temporary file and `dest` that of the destination;
      `doneCloses` counts how often the channel `done` has been closed (a second
      time would panic) and `replaced` how often the destination was replaced. */
  datatype Session = Session(
    cmd: string,
    mode: string,
    expected: nat,
    size: nat,
    closed: bool,
    failed: bool,
    doneCloses: nat,
    tmp: Bytes,
    tmpThere: bool,
    dest: Option<Bytes>,
    destMode: Option<nat>,
    replaced: nat)

  function Fresh(cmd: string, mode: string, dest: Option<Bytes>): Session {
    Session(cmd, mode, 0, 0, false, false, 0, [], true, dest, None, 0)
  }

  predicate Rejects(s: Session, c: Chunk) {
    s.closed || c.cmd != s.cmd || c.number != s.expected || |c.data| > MAX_CHUNK
  }

  predicate WriteFails(c: Chunk, io: Io) {
    io.written < |c.data|
  }

  function AfterChunk(s: Session, c: Chunk, io: Io): Session {
    if Rejects(s, c) then s
    else if WriteFails(c, io) then s.(tmp := s.tmp + c.data[..io.written])
    else
      var s' := s.(tmp := s.tmp + c.data, size := s.size + |c.data|, expected := s.expected + 1);
      if c.eof then AfterFinish(s', io) else s'
  }

  function AfterFinish(s: Session, io: Io): Session {
    var s' := s.(closed := true, doneCloses := s.doneCloses + 1);
    if !io.closeOk then s'.(failed := true)
    else if !io.renameOk then s'.(failed := true, tmpThere := false)
    else
      var r := s'.(dest := Some(s.tmp), replaced := s.replaced + 1, tmpThere := false);
      if s.mode == "" then r
      else if !Octal(Digits(s.mode)) || !io.chmodOk then r.(failed := true)
      else r.(destMode := Some(OctalValue(Digits(s.mode)) % TWO32))
  }

  /** Finishing returns no error; a mode that is not octal is only recorded. */
  predicate FinishOk(mode: string, io: Io) {
    io.closeOk && io.renameOk && (mode != "" && Octal(Digits(mode)) ==> io.chmodOk)
  }

  function AfterTimeout(s: Session): Session {
    if s.closed then s else s.(closed := true, tmpThere := false)
  }

  function AfterAbandon(s: Session): Session {
    if s.closed then s else s.(closed := true, tmpThere := false, doneCloses := s.doneCloses + 1)
  }

  class Push {
    const cmd: string
    const mode: string
    var expected: nat
    var size: nat
    var closed: bool
    var failed: bool
    var doneCloses: nat
    var tmp: Bytes
    var tmpThere: bool
    var dest: Option<Bytes>
    var destMode: Option<nat>
    var replaced: nat

    ghost function View(): Session
      reads this
    {
      Session(cmd, mode, expected, size, closed, failed, doneCloses, tmp, tmpThere, dest, destMode, replaced)
    }

    constructor (cmd: string, mode: string, dest: Option<Bytes>)
      ensures View() == Fresh(cmd, mode, dest)
    {
      this.cmd, this.mode, this.dest := cmd, mode, dest;
      expected, size, closed, failed, doneCloses := 0, 0, false, false, 0;
      tmp, tmpThere, destMode, replaced := [], true, None, 0;
    }

    method Chunk(c: Chunk, io: Io) returns (ok: bool)
      modifies this
      ensures View() == AfterChunk(old(View()), c, io)
      ensures ok <==> !Rejects(old(View()), c) && !WriteFails(c, io) && (c.eof ==> FinishOk(mode, io))
    {
      if closed { return false; }
      if c.cmd != cmd { return false; }
      if c.number != expected { return false; }
      if |c.data| > MAX_CHUNK { return false; }
      if io.written < |c.data| {
        tmp := tmp + c.data[..io.written];
        return false;
      }
      tmp := tmp + c.data;
      size := size + |c.data|;
      expected := expected + 1;
      if c.eof {
        ok := FinishLocked(io);
        return;
      }
      return true;
    }

    method FinishLocked(io: Io) returns (ok: bool)
      modifies this
      ensures View() == AfterFinish(old(View()), io)
      ensures ok <==> io.closeOk && io.renameOk && (mode == "" || !Octal(Digits(mode)) || io.chmodOk)
    {
      hide Octal, OctalValue, Digits;
      closed := true;
      doneCloses := doneCloses + 1;
      if !io.closeOk {
        failed := true;
        return false;
      }
      tmpThere := false;
      if !io.renameOk {
        failed := true;
        return false;
      }
      dest := Some(tmp);
      replaced := replaced + 1;
      if mode != "" {
        var m := ParseMode(mode);
        if m.Some? {
          if !io.chmodOk {
            failed := true;
            return false;
          }
          destMode := Some(m.value);
        } else {
          failed := true;
        }
      }
      return true;
    }

    /** Returns because `done` was closed, or because the context ended first. */
    method Wait(timedOut: bool) returns (n: nat, ok: bool)
      requires !timedOut ==> doneCloses > 0
      modifies this
      ensures View() == if timedOut then AfterTimeout(old(View())) else old(View())
      ensures (n, ok) == if timedOut then (0, false) else (size, !failed)
    {
      if !timedOut {
        return size, !failed;
      }
      if !closed {
        closed := true;
        tmpThere := false;
      }
      return 0, false;
    }

    method Abandon()
      modifies this
      ensures View() == AfterAbandon(old(View()))
    {
      if closed {
        return;
      }
      closed := true;
      tmpThere := false;
      doneCloses := doneCloses + 1;
    }
  }

  // ---- runs ----

  datatype Event = OnChunk(c: Chunk, io: Io) | OnTimeout | OnAbandon

  /** `taken` are the accepted chunks, `junk` the bytes left in the temporary file by
      writes that failed half-way, `abandoned` whether Abandon ended the session. */
  datatype Run = Run(s: Session, taken: seq<Chunk>, junk: nat, abandoned: bool)

  ghost function Step(r: Run, e: Event): Run {
    match e
    case OnChunk(c, io) =>
      var s' := AfterChunk(r.s, c, io);
      if Rejects(r.s, c) then r
      else if WriteFails(c, io) then r.(s := s', junk := r.junk + io.written)
      else r.(s := s', taken := r.taken + [c])
    case OnTimeout => r.(s := AfterTimeout(r.s))
    case OnAbandon => r.(s := AfterAbandon(r.s), abandoned := r.abandoned || !r.s.closed)
  }

  ghost function Play(r: Run, es: seq<Event>): Run
    decreases |es|
  {
    if es == [] then r else Play(Step(r, es[0]), es[1..])
  }

  function Data(cs: seq<Chunk>): Bytes {
    if cs == [] then [] else Data(cs[..|cs| - 1]) + cs[|cs| - 1].data
  }

  /** Chunks 0..k of one command of which none but the last may be the final one. */
  ghost predicate InSequence(cmd: string, cs: seq<Chunk>) {
    && (forall i :: 0 <= i < |cs| ==> cs[i].number == i && cs[i].cmd == cmd && |cs[i].data| <= MAX_CHUNK)
    && (forall i :: 0 <= i < |cs| - 1 ==> !cs[i].eof)
  }

  predicate EndsInEof(cs: seq<Chunk>) {
    cs != [] && cs[|cs| - 1].eof
  }

  ghost predicate Ok(r: Run, dest: Option<Bytes>) {
    var s := r.s;
    && InSequence(s.cmd, r.taken) && s.expected == |r.taken|
    && s.size == |Data(r.taken)|
    && |s.tmp| == |Data(r.taken)| + r.junk
    && (r.junk == 0 ==> s.tmp == Data(r.taken))
    && s.doneCloses <= 1 && s.replaced <= 1
    && (!s.closed ==> s.tmpThere && !EndsInEof(r.taken) && s.doneCloses == 0 && !s.failed && !r.abandoned)
    && (s.replaced == 0 ==> s.dest == dest)
    && (s.replaced == 1 ==>
          s.closed && s.doneCloses == 1 && EndsInEof(r.taken) && s.dest == Some(s.tmp) && !r.abandoned)
    && (s.doneCloses == 1 && !s.failed ==> (s.replaced == 1 <==> !r.abandoned))
    && (s.closed && !s.failed ==> !s.tmpThere)
  }

  lemma StepOk(r: Run, dest: Option<Bytes>, e: Event)
    requires Ok(r, dest)
    ensures Ok(Step(r, e), dest)
  {
    if e.OnChunk? && !Rejects(r.s, e.c) && !WriteFails(e.c, e.io) {
      TakenOk(r, dest, e.c, e.io);
    } else {
      hide InSequence, Data, AfterFinish;
    }
  }

  /** An accepted chunk, the last one or not. */
  lemma TakenOk(r: Run, dest: Option<Bytes>, c: Chunk, io: Io)
    requires Ok(r, dest) && !Rejects(r.s, c) && !WriteFails(c, io)
    ensures Ok(Step(r, OnChunk(c, io)), dest)
  {
    hide InSequence, Data, Octal, OctalValue, Digits;
    OneMoreTaken(r.s.cmd, r.taken, c);
  }

  lemma {:induction false} OneMoreTaken(cmd: string, taken: seq<Chunk>, c: Chunk)
    requires InSequence(cmd, taken) && !EndsInEof(taken)
    requires c.cmd == cmd && c.number == |taken| && |c.data| <= MAX_CHUNK
    ensures InSequence(cmd, taken + [c]) && Data(taken + [c]) == Data(taken) + c.data
  {
    var all := taken + [c];
    assert all[..|all| - 1] == taken && all[|all| - 1] == c;
  }

  /** THE FINAL CHUNK, EXACTLY. The destination is replaced if and only if close and rename
      succeed; then it gets the mode asked for, if that is octal and can be set, and
      keeps its own otherwise; the temporary file is left over only by a failed
      close; and the session has failed if and only if any of these did. */
  lemma FinishExactly(s: Session, c: Chunk, io: Io)
    requires !Rejects(s, c) && !WriteFails(c, io) && c.eof
    ensures var s' := AfterChunk(s, c, io);
            var modeSet := s.mode != "" && Octal(Digits(s.mode)) && io.chmodOk;
            && s'.closed && s'.doneCloses == s.doneCloses + 1
            && s'.replaced == s.replaced + (if io.closeOk && io.renameOk then 1 else 0)
            && s'.dest == (if io.closeOk && io.renameOk then Some(s.tmp + c.data) else s.dest)
            && s'.destMode == (if io.closeOk && io.renameOk && modeSet
                               then Some(OctalValue(Digits(s.mode)) % 0x1_0000_0000) else s.destMode)
            && s'.tmpThere == (!io.closeOk && s.tmpThere)
            && (s'.failed <==> s.failed || !io.closeOk || !io.renameOk || (s.mode != "" && !modeSet))
  {
    hide OctalValue;
  }

  /** SESSIONS. Under any interleaving of chunks, timeouts and abandonment, with
      writes, close, rename and chmod failing at will: `done` is closed at most
      once, the destination is replaced at most once and only after chunks
      0..k ending in the final one, and until then it is what it was. */
  lemma {:induction false} SessionRun(r: Run, dest: Option<Bytes>, es: seq<Event>)
    requires Ok(r, dest)
    ensures Ok(Play(r, es), dest)
    decreases |es|
  {
    if es != [] {
      StepOk(r, dest, es[0]);
      SessionRun(Step(r, es[0]), dest, es[1..]);
    }
  }

  ghost function Begin(cmd: string, mode: string, dest: Option<Bytes>): Run {
    Run(Fresh(cmd, mode, dest), [], 0, false)
  }

  /** WHAT ARRIVES, EXACTLY. A replaced destination holds the data of the accepted
      chunks if and only if no failed write had left bytes behind. */
  lemma DeliveredExactly(cmd: string, mode: string, dest: Option<Bytes>, es: seq<Event>)
    ensures var r := Play(Begin(cmd, mode, dest), es);
            r.s.replaced == 1 ==> (r.s.dest == Some(Data(r.taken)) <==> r.junk == 0)
  {
    SessionRun(Begin(cmd, mode, dest), dest, es);
  }

  /** WHAT WAIT REPORTS, EXACTLY. When `Wait` returns without an error because `done`
      was closed, the destination was replaced if and only if the session was not
      abandoned; an abandoned one reports success all the same. */
  lemma WaitReportExactly(cmd: string, mode: string, dest: Option<Bytes>, es: seq<Event>)
    ensures var r := Play(Begin(cmd, mode, dest), es);
            r.s.doneCloses > 0 && !r.s.failed ==> (r.s.replaced == 1 <==> !r.abandoned)
    ensures var r := Play(Begin(cmd, mode, dest), [OnAbandon]);
            r.s.doneCloses == 1 && !r.s.failed && r.s.size == 0 && r.s.dest == dest && r.s.replaced == 0
  {
    SessionRun(Begin(cmd, mode, dest), dest, es);
    assert [OnAbandon][1..] == [];
    assert Play(Begin(cmd, mode, dest), [OnAbandon]) == Step(Begin(cmd, mode, dest), OnAbandon);
  }

  /** Nothing changes after close, whatever comes; a rejected chunk changes nothing. */
  lemma {:induction false} ClosedIsFinal(r: Run, es: seq<Event>)
    requires r.s.closed
    ensures Play(r, es) == r
    decreases |es|
  {
    if es != [] {
      assert Step(r, es[0]) == r;
      ClosedIsFinal(r, es[1..]);
    }
  }

  function AllGood(c: Chunk): Io {
    Io(|c.data|, true, true, true)
  }

  function Feed(cs: seq<Chunk>): (es: seq<Event>)
    ensures |es| == |cs|
  {
    if cs == [] then [] else [OnChunk(cs[0], AllGood(cs[0]))] + Feed(cs[1..])
  }

  ghost predicate Receiving(s: Session, from: nat) {
    && !s.closed && s.expected == from && s.doneCloses == 0 && !s.failed
    && (s.mode == "" || Octal(Digits(s.mode)))
  }

  /** One chunk of a transfer, accepted. */
  lemma TakeChunk(r: Run, from: nat, c: Chunk) returns (r': Run)
    requires Receiving(r.s, from) && c.cmd == r.s.cmd && c.number == from && |c.data| <= MAX_CHUNK
    ensures r' == Step(r, OnChunk(c, AllGood(c)))
    ensures r'.s.cmd == r.s.cmd && r'.s.tmp == r.s.tmp + c.data && r'.s.size == r.s.size + |c.data|
    ensures !c.eof ==> Receiving(r'.s, from + 1) && r'.s.replaced == r.s.replaced
    ensures c.eof ==> r'.s.closed && r'.s.doneCloses == 1 && !r'.s.failed
                      && r'.s.dest == Some(r'.s.tmp) && r'.s.replaced == r.s.replaced + 1
  {
    r' := Step(r, OnChunk(c, AllGood(c)));
  }

  lemma FeedCons(r: Run, cs: seq<Chunk>)
    requires cs != []
    ensures Play(r, Feed(cs)) == Play(Step(r, OnChunk(cs[0], AllGood(cs[0]))), Feed(cs[1..]))
  {
    assert Feed(cs)[1..] == Feed(cs[1..]);
  }

  /** The session has put `content` at the destination, once, and reports no error. */
  predicate Arrived(s: Session, content: Bytes, size: nat, replaced: nat) {
    s.dest == Some(content) && s.size == size && s.replaced == replaced
    && s.closed && s.doneCloses == 1 && !s.failed
  }

  /** ROUND TRIP. The chunks of a transfer, fed to a session of the same command that
      has taken the ones before, put exactly the content at the destination. */
  lemma {:induction false} RoundTrip(r: Run, from: nat, content: Bytes, cs: seq<Chunk>)
    requires Receiving(r.s, from) && Transfer(r.s.cmd, from, content, cs)
    ensures Arrived(Play(r, Feed(cs)).s, r.s.tmp + content, r.s.size + |content|, r.s.replaced + 1)
    decreases |cs|
  {
    var c := cs[0];
    var r' := TakeChunk(r, from, c);
    FeedCons(r, cs);
    if |cs| > 1 {
      RoundTrip(r', from + 1, content[|c.data|..], cs[1..]);
      assert r.s.tmp + content == r.s.tmp + c.data + content[|c.data|..];
    } else {
      assert Feed(cs[1..]) == [];
    }
  }

  lemma {:induction false} FeedAddsNoJunk(r: Run, cs: seq<Chunk>)
    ensures Play(r, Feed(cs)).junk == r.junk
    decreases |cs|
  {
    if cs != [] {
      FeedCons(r, cs);
      FeedAddsNoJunk(Step(r, OnChunk(cs[0], AllGood(cs[0]))), cs[1..]);
    }
  }

  /** JUNK ARRIVES. A first chunk of which only a part could be written is an error, and when
      the whole transfer is then sent again that part stays in front of it: the
      destination is replaced, no error is reported, and it is not what the
      accepted chunks hold. */
  lemma JunkArrives(cmd: string, mode: string, dest: Option<Bytes>, c: Chunk, io: Io, content: Bytes, cs: seq<Chunk>)
    requires mode == "" || Octal(Digits(mode))
    requires !Rejects(Fresh(cmd, mode, dest), c) && 0 < io.written < |c.data|
    requires Transfer(cmd, 0, content, cs)
    ensures var r := Play(Begin(cmd, mode, dest), [OnChunk(c, io)] + Feed(cs));
            && Arrived(r.s, c.data[..io.written] + content, |content|, 1)
            && r.junk == io.written && r.s.dest != Some(Data(r.taken))
  {
    var r0 := Begin(cmd, mode, dest);
    var es := [OnChunk(c, io)] + Feed(cs);
    assert es[1..] == Feed(cs);
    var r1 := Step(r0, OnChunk(c, io));
    assert Play(r0, es) == Play(r1, Feed(cs));
    assert r1.s.tmp == c.data[..io.written];
    RoundTrip(r1, 0, content, cs);
    FeedAddsNoJunk(r1, cs);
    DeliveredExactly(cmd, mode, dest, es);
  }

  /** A pulled file pushed to a fresh session of the same command arrives whole. */
  method PullThenPush(cmd: string, fi: FileInfo, content: Bytes, ts: seq<Turn>, dest: Option<Bytes>)
    returns (sent: seq<Chunk>)
    requires fi.Regular? && fi.size <= MAX_PULL && ReadsAll(content, ts)
    ensures Arrived(Play(Begin(cmd, "", dest), Feed(sent)).s, content, |content|, 1)
  {
    var r;
    sent, r := SendPull(cmd, fi, content, ts);
    RoundTrip(Begin(cmd, "", dest), 0, content, sent);
    assert [] + content == content;
  }
}
