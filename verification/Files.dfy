/** File transfer: a chunker that reads a file in blocks, an assembler that puts
chunks together, and the octal mode string.

`RoundTrip` says that the two undo each other for every pattern of short reads;
`SessionRun` what any interleaving of the assembler's operations keeps.
*/
module Files {
  import opened Basics

  const MAX_CHUNK: nat := 262144
  const MAX_PULL: nat := 268435456

  datatype Chunk = Chunk(cmd: string, number: nat, data: Bytes, eof: bool, total: int, mode: nat)

  // ---- sending ----

  /** What one turn of the read loop meets: a cancelled context, or a read that
      delivers `n` bytes and possibly an error. `sendOk` is the stream's answer. */
  datatype ReadError = NoError | Eof | OtherError
  datatype Turn = Cancelled | Got(n: nat, err: ReadError, sendOk: bool)

  datatype FileInfo = NoFile | Irregular | TooLarge | CannotOpen | Regular(size: nat, mode: nat)

  datatype Sent = Finished(size: nat, mode: nat) | SendError

  /** The turns that an uninterrupted read of `content` can take: any blocks of at
      most 256 KiB, empty reads in between, and end of file together with the last
      bytes or after them. */
  ghost predicate ReadsAll(content: Bytes, ts: seq<Turn>)
    decreases |ts|
  {
    && ts != []
    && ts[0].Got? && ts[0].sendOk && ts[0].n <= MAX_CHUNK && ts[0].n <= |content|
    && match ts[0].err
       case OtherError => false
       case Eof => ts[0].n == |content| && |ts| == 1
       case NoError => ReadsAll(content[ts[0].n..], ts[1..])
  }

  /** Chunks of one command, numbered on from `from`, whose data is `content` and
      of which only the last is marked. */
  ghost predicate Transfer(cmd: string, from: nat, content: Bytes, cs: seq<Chunk>)
    decreases |cs|
  {
    && cs != []
    && cs[0].cmd == cmd && cs[0].number == from && |cs[0].data| <= MAX_CHUNK && cs[0].data <= content
    && (cs[0].eof <==> |cs| == 1)
    && (|cs| == 1 ==> cs[0].data == content)
    && (|cs| > 1 ==> Transfer(cmd, from + 1, content[|cs[0].data|..], cs[1..]))
  }

  lemma {:induction false} TransferAppend(cmd: string, from: nat, done: Bytes, cs: seq<Chunk>,
                                          more: Bytes, tail: seq<Chunk>)
    requires Partial(cmd, from, done, cs) && Transfer(cmd, from + |cs|, more, tail)
    ensures Transfer(cmd, from, done + more, cs + tail)
    decreases |cs|
  {
    if cs == [] {
      assert cs + tail == tail && done + more == more;
    } else {
      var d := cs[0].data;
      TransferAppend(cmd, from + 1, done[|d|..], cs[1..], more, tail);
      assert (cs + tail)[1..] == cs[1..] + tail;
      assert (done + more)[|d|..] == done[|d|..] + more;
    }
  }

  /** The same without the last chunk. */
  ghost predicate Partial(cmd: string, from: nat, content: Bytes, cs: seq<Chunk>)
    decreases |cs|
  {
    if cs == [] then content == []
    else
      && cs[0].cmd == cmd && cs[0].number == from && |cs[0].data| <= MAX_CHUNK && cs[0].data <= content
      && !cs[0].eof && Partial(cmd, from + 1, content[|cs[0].data|..], cs[1..])
  }

  lemma {:induction false} PartialAppend(cmd: string, from: nat, done: Bytes, cs: seq<Chunk>, c: Chunk)
    requires Partial(cmd, from, done, cs)
    requires c.cmd == cmd && c.number == from + |cs| && |c.data| <= MAX_CHUNK && !c.eof
    ensures Partial(cmd, from, done + c.data, cs + [c])
    decreases |cs|
  {
    if cs == [] {
      assert cs + [c] == [c] && [c][1..] == [] && done + c.data == c.data;
      assert c.data[|c.data|..] == [];
    } else {
      var d := cs[0].data;
      PartialAppend(cmd, from + 1, done[|d|..], cs[1..], c);
      assert (cs + [c])[1..] == cs[1..] + [c];
      assert (done + c.data)[|d|..] == done[|d|..] + c.data;
    }
  }

  /** How many bytes the first i turns bring. */
  function Read(ts: seq<Turn>, i: nat): (n: nat)
    requires i <= |ts|
  {
    if i == 0 then 0 else Read(ts, i - 1) + (if ts[i - 1].Got? then ts[i - 1].n else 0)
  }

  /** Turn i is a read within the buffer and the content. */
  ghost predicate Fits(content: Bytes, ts: seq<Turn>, i: nat)
    requires i < |ts|
  {
    ts[i].Got? && ts[i].n <= 262144 && Read(ts, i) + ts[i].n <= |content|
  }

  /** Turn i neither ends nor breaks off the pull: no error, and what was read is sent. */
  ghost predicate GoesOnAt(content: Bytes, ts: seq<Turn>, i: nat)
    requires i < |ts|
  {
    Fits(content, ts, i) && ts[i].err == NoError && (ts[i].n > 0 ==> ts[i].sendOk)
  }

  /** Turn i meets the end of the file and the final chunk is sent. */
  ghost predicate EndsAt(content: Bytes, ts: seq<Turn>, i: nat)
    requires i < |ts|
  {
    Fits(content, ts, i) && ts[i].err == Eof && ts[i].sendOk
  }

  /** The turns before turn m go on. */
  ghost predicate GoesOnUntil(content: Bytes, ts: seq<Turn>, m: nat)
  {
    m <= |ts| && forall i :: 0 <= i < m ==> GoesOnAt(content, ts, i)
  }

  ghost predicate Finishes(content: Bytes, ts: seq<Turn>, m: nat) {
    m < |ts| && GoesOnUntil(content, ts, m) && EndsAt(content, ts, m)
  }

  ghost predicate BreaksOff(content: Bytes, ts: seq<Turn>, m: nat) {
    GoesOnUntil(content, ts, m) && (m < |ts| ==> !GoesOnAt(content, ts, m) && !EndsAt(content, ts, m))
  }

  /** A pull has one outcome: it finishes at one turn or breaks off at one. */
  lemma OneOutcome(content: Bytes, ts: seq<Turn>, m: nat, m': nat)
    requires Finishes(content, ts, m) || BreaksOff(content, ts, m)
    requires Finishes(content, ts, m') || BreaksOff(content, ts, m')
    ensures m == m' && (Finishes(content, ts, m) <==> !BreaksOff(content, ts, m))
  {
    hide Fits, Read;
    EarlierGoesOn(content, ts, m, m');
    EarlierGoesOn(content, ts, m', m);
  }

  lemma EarlierGoesOn(content: Bytes, ts: seq<Turn>, m: nat, later: nat)
    requires GoesOnUntil(content, ts, later)
    ensures m < later ==> m < |ts| && GoesOnAt(content, ts, m)
  {
  }

  /** An uninterrupted read finishes, with all of the content. */
  lemma {:induction false} ReadsAllFinishes(content: Bytes, rest: Bytes, ts: seq<Turn>, i: nat) returns (m: nat)
    requires GoesOnUntil(content, ts, i) && Read(ts, i) + |rest| == |content| && ReadsAll(rest, ts[i..])
    ensures Finishes(content, ts, m) && m == |ts| - 1 && Read(ts, m) + ts[m].n == |content|
    decreases |ts| - i
  {
    NextTurn(rest, ts, i);
    if ts[i].err.Eof? {
      m := i;
    } else {
      m := ReadsAllFinishes(content, rest[ts[i].n..], ts, i + 1);
    }
  }

  /** In the middle of a pull: `rest` of the content is still to be read. */
  ghost predicate UnderWay(cmd: string, content: Bytes, rest: Bytes, sent: seq<Chunk>) {
    && |rest| <= |content| && content[|content| - |rest|..] == rest
    && Partial(cmd, 0, content[..|content| - |rest|], sent)
  }

  lemma PullGoesOn(cmd: string, content: Bytes, rest: Bytes, sent: seq<Chunk>, n: nat, c: Chunk)
    requires UnderWay(cmd, content, rest, sent) && n <= |rest| && n <= MAX_CHUNK
    requires c.cmd == cmd && c.number == |sent| && c.data == rest[..n] && !c.eof
    ensures UnderWay(cmd, content, rest[n..], sent + [c])
  {
    hide Partial;
    var done := content[..|content| - |rest|];
    PartialAppend(cmd, 0, done, sent, c);
    assert done + c.data == content[..|content| - |rest[n..]|];
  }

  lemma PullEnds(cmd: string, content: Bytes, rest: Bytes, sent: seq<Chunk>, c: Chunk)
    requires UnderWay(cmd, content, rest, sent) && c.data <= rest && |c.data| <= MAX_CHUNK
    requires c.cmd == cmd && c.number == |sent| && c.eof
    ensures Transfer(cmd, 0, content[..|content| - |rest| + |c.data|], sent + [c])
  {
    hide Partial, Transfer;
    var done := content[..|content| - |rest|];
    LastChunk(cmd, done, sent, c);
    assert done + c.data == content[..|done| + |c.data|];
  }

  /** What an uninterrupted read meets next. */
  lemma NextTurn(rest: Bytes, ts: seq<Turn>, i: nat)
    requires i < |ts| && ReadsAll(rest, ts[i..])
    ensures ts[i].Got? && ts[i].sendOk && ts[i].n <= MAX_CHUNK && ts[i].n <= |rest| && !ts[i].err.OtherError?
    ensures ts[i].err.Eof? ==> ts[i].n == |rest| && i == |ts| - 1
    ensures ts[i].err.NoError? ==> ReadsAll(rest[ts[i].n..], ts[i + 1..]) && i + 1 < |ts|
  {
    assert ts[i..][1..] == ts[i + 1..];
  }

  /** What a pull of a regular file comes to at turn m: the chunks carry exactly the bytes
      read by the turns before and, if it finishes, by that turn; the last one is
      marked if and only if it finishes. */
  ghost predicate PullOutcome(
      cmd: string, fi: FileInfo, content: Bytes, ts: seq<Turn>, sent: seq<Chunk>, r: Sent, m: nat)
    requires fi.Regular?
  {
    || (&& Finishes(content, ts, m)
        && Transfer(cmd, 0, content[..Read(ts, m) + ts[m].n], sent)
        && r == Finished(if ts[m].n > 0 then fi.size else 0, fi.mode))
    || (&& BreaksOff(content, ts, m)
        && Read(ts, m) <= |content| && Partial(cmd, 0, content[..Read(ts, m)], sent)
        && r == SendError)
  }

  lemma OutcomeCarries(cmd: string, fi: FileInfo, content: Bytes, ts: seq<Turn>, sent: seq<Chunk>, r: Sent, m: nat)
    requires fi.Regular? && PullOutcome(cmd, fi, content, ts, sent, r, m)
    ensures if r.Finished? then Finishes(content, ts, m) else BreaksOff(content, ts, m)
    ensures exists k: nat :: k <= |content| &&
              if r.Finished? then Transfer(cmd, 0, content[..k], sent) else Partial(cmd, 0, content[..k], sent)
  {
    hide Transfer, Partial, Read;
    if r.Finished? {
      assert Transfer(cmd, 0, content[..Read(ts, m) + ts[m].n], sent);
    } else {
      assert Partial(cmd, 0, content[..Read(ts, m)], sent);
    }
  }

  /** Each chunk carries the file's mode and size; an empty final one size 0. */
  ghost predicate Describe(fi: FileInfo, sent: seq<Chunk>)
    requires fi.Regular?
  {
    forall k :: 0 <= k < |sent| ==>
      sent[k].mode == fi.mode && sent[k].total == if sent[k].data == [] then 0 else fi.size
  }

  /** Reads the file described by `fi` and holding `content`; `ts` is how the reads
      and sends go. The chunks that the stream accepted are returned. */
  method SendPull(cmd: string, fi: FileInfo, content: Bytes, ts: seq<Turn>) returns (sent: seq<Chunk>, r: Sent)
    ensures !fi.Regular? || fi.size > 268435456 ==> sent == [] && r == SendError
    ensures fi.Regular? && fi.size <= 268435456 ==> exists m: nat :: PullOutcome(cmd, fi, content, ts, sent, r, m)
    ensures fi.Regular? && fi.size <= 268435456 ==> Describe(fi, sent)
    ensures fi.Regular? && fi.size <= 268435456 && ReadsAll(content, ts) ==>
              && Transfer(cmd, 0, content, sent)
              && r == Finished(if ts[|ts| - 1].Got? && ts[|ts| - 1].n > 0 then fi.size else 0, fi.mode)
  {
    hide Partial, Transfer, UnderWay, Read;
    sent := [];
    if !fi.Regular? || fi.size > MAX_PULL {
      return sent, SendError;
    }
    NothingSent(cmd, content, ts);
    var number := 0;
    var rest := content;
    for i := 0 to |ts|
      invariant number == |sent| && |rest| <= |content|
      invariant UnderWay(cmd, content, rest, sent) && Describe(fi, sent)
      invariant GoesOnUntil(content, ts, i) && Read(ts, i) == |content| - |rest|
    {
      var t := ts[i];
      ReadNext(ts, i);
      if t.Cancelled? {
        Stopped(cmd, fi, content, ts, rest, sent, i);
        return sent, SendError;
      }
      if t.n > 0 {
        if t.n > |rest| || t.n > MAX_CHUNK || t.err.OtherError? || !t.sendOk {
          Stopped(cmd, fi, content, ts, rest, sent, i);
          return sent, SendError;
        }
        var c := Chunk(cmd, number, rest[..t.n], t.err.Eof?, fi.size, fi.mode);
        if c.eof {
          PullEnds(cmd, content, rest, sent, c);
          Ended(cmd, fi, content, ts, sent + [c], i);
          return sent + [c], Finished(fi.size, fi.mode);
        }
        PullGoesOn(cmd, content, rest, sent, t.n, c);
        sent := sent + [c];
        rest := rest[t.n..];
        number := number + 1;
        continue;
      }
      assert rest[0..] == rest;
      if t.err.NoError? {
        continue;
      }
      if t.err.Eof? && t.sendOk {
        var c := Chunk(cmd, number, [], true, 0, fi.mode);
        PullEnds(cmd, content, rest, sent, c);
        Ended(cmd, fi, content, ts, sent + [c], i);
        return sent + [c], Finished(0, fi.mode);
      }
      Stopped(cmd, fi, content, ts, rest, sent, i);
      return sent, SendError;
    }
    Stopped(cmd, fi, content, ts, rest, sent, |ts|);
    return sent, SendError;
  }

  lemma ReadNext(ts: seq<Turn>, i: nat)
    requires i < |ts|
    ensures Read(ts, i + 1) == Read(ts, i) + (if ts[i].Got? then ts[i].n else 0)
  {
  }

  lemma NothingSent(cmd: string, content: Bytes, ts: seq<Turn>)
    ensures UnderWay(cmd, content, content, []) && Read(ts, 0) == 0
  {
    assert content[..0] == [] && content[0..] == content;
  }

  lemma Stopped(cmd: string, fi: FileInfo, content: Bytes, ts: seq<Turn>, rest: Bytes, sent: seq<Chunk>, m: nat)
    requires fi.Regular? && UnderWay(cmd, content, rest, sent) && BreaksOff(content, ts, m)
    requires Read(ts, m) == |content| - |rest|
    ensures PullOutcome(cmd, fi, content, ts, sent, SendError, m)
    ensures !ReadsAll(content, ts)
  {
    hide Partial, Transfer, ReadsAll;
    WholeRead(content, ts, m);
  }

  /** Where an uninterrupted read comes to its end. */
  lemma WholeRead(content: Bytes, ts: seq<Turn>, m: nat)
    requires Finishes(content, ts, m) || BreaksOff(content, ts, m)
    ensures ReadsAll(content, ts) ==>
              && Finishes(content, ts, m) && !BreaksOff(content, ts, m)
              && m == |ts| - 1 && Read(ts, m) + ts[m].n == |content|
  {
    if ReadsAll(content, ts) {
      assert ts[0..] == ts;
      var m' := ReadsAllFinishes(content, content, ts, 0);
      hide GoesOnUntil, EndsAt, GoesOnAt, Read, ReadsAll, BreaksOff;
      OneOutcome(content, ts, m, m');
    }
  }

  lemma Ended(cmd: string, fi: FileInfo, content: Bytes, ts: seq<Turn>, sent: seq<Chunk>, m: nat)
    requires fi.Regular? && Finishes(content, ts, m)
    requires Transfer(cmd, 0, content[..Read(ts, m) + ts[m].n], sent)
    ensures PullOutcome(cmd, fi, content, ts, sent, Finished(if ts[m].n > 0 then fi.size else 0, fi.mode), m)
    ensures ReadsAll(content, ts) ==> m == |ts| - 1 && Transfer(cmd, 0, content, sent)
  {
    hide Partial, Transfer, ReadsAll, GoesOnUntil, EndsAt, Read;
    WholeRead(content, ts, m);
    assert content[..|content|] == content;
  }

  lemma LastChunk(cmd: string, done: Bytes, sent: seq<Chunk>, c: Chunk)
    requires Partial(cmd, 0, done, sent)
    requires c.cmd == cmd && c.number == |sent| && |c.data| <= MAX_CHUNK && c.eof
    ensures Transfer(cmd, 0, done + c.data, sent + [c])
  {
    assert Transfer(cmd, |sent|, c.data, [c]);
    TransferAppend(cmd, 0, done, sent, c.data, [c]);
  }

  // ---- octal modes ----

  const TWO32: int := 0x1_0000_0000
  const TWO63: int := 0x8000_0000_0000_0000
  const TWO64: int := 0x1_0000_0000_0000_0000

  /** Two's-complement wrap-around of a 64-bit integer. */
  function Wrap64(n: int): (w: int)
    ensures -TWO63 <= w < TWO63
  {
    (n + TWO63) % TWO64 - TWO63
  }

  predicate Octal(s: string) {
    forall i :: 0 <= i < |s| ==> '0' <= s[i] <= '7'
  }

  /** The number that an octal string denotes, of whatever size. */
  function OctalValue(s: string): nat
    requires Octal(s)
  {
    if s == [] then 0 else 8 * OctalValue(s[..|s| - 1]) + (s[|s| - 1] as int - '0' as int)
  }

  lemma Mod64(x: int, k: int)
    ensures (x + k * TWO64) % TWO64 == x % TWO64
  {
    var q, r := x / TWO64, x % TWO64;
    assert x == q * TWO64 + r;
    Remainder64(x + k * TWO64, q + k, r);
  }

  lemma Remainder64(x: int, q: int, r: int)
    requires x == q * TWO64 + r && 0 <= r < TWO64
    ensures x % TWO64 == r
  {
  }

  lemma Mod32(x: int, k: int)
    ensures (x + k * TWO32) % TWO32 == x % TWO32
  {
    var q, r := x / TWO32, x % TWO32;
    assert x == q * TWO32 + r;
    Remainder32(x + k * TWO32, q + k, r);
  }

  lemma Remainder32(x: int, q: int, r: int)
    requires x == q * TWO32 + r && 0 <= r < TWO32
    ensures x % TWO32 == r
  {
  }

  /** What wrapping takes off, as a multiple of 2^64. */
  lemma WrapQuotient(n: int) returns (q: int)
    ensures n == Wrap64(n) + q * TWO64
  {
    q := (n + TWO63) / TWO64;
  }

  lemma WrapStep(w: int, n: int, d: int)
    requires w == Wrap64(n)
    ensures Wrap64(w * 8 + d) == Wrap64(n * 8 + d)
  {
    var q := WrapQuotient(n);
    Mod64(w * 8 + d + TWO63, 8 * q);
  }

  method ParseOctal(t: string) returns (n: Option<int>)
    ensures n.Some? <==> Octal(t)
    ensures n.Some? ==> n.value == Wrap64(OctalValue(t))
  {
    var v := 0;
    for i := 0 to |t|
      invariant Octal(t[..i])
      invariant v == Wrap64(OctalValue(t[..i]))
    {
      if t[i] < '0' || t[i] > '7' {
        return None;
      }
      var d := t[i] as int - '0' as int;
      assert t[..i + 1][..i] == t[..i];
      WrapStep(v, OctalValue(t[..i]), d);
      v := Wrap64(v * 8 + d);
    }
    assert t[..|t|] == t;
    return Some(v);
  }

  /** "0o755" loses its prefix, everything else is taken as it stands. */
  function Digits(mode: string): string {
    if |mode| >= 2 && mode[..2] == "0o" then mode[2..] else mode
  }

  /** The file mode is the octal value modulo 2^32, for strings of any length: the
      64-bit wrap-around on the way is invisible. */
  method ParseMode(mode: string) returns (m: Option<nat>)
    ensures m.Some? <==> Octal(Digits(mode))
    ensures m.Some? ==> m.value == OctalValue(Digits(mode)) % 0x1_0000_0000
  {
    var t := mode;
    if |t| >= 2 && t[..2] == "0o" {
      t := t[2..];
    }
    var n := ParseOctal(t);
    if n.None? {
      return None;
    }
    WrapMod32(OctalValue(t));
    return Some(n.value % TWO32);
  }

  lemma WrapMod32(n: int)
    ensures Wrap64(n) % TWO32 == n % TWO32
  {
    var q := WrapQuotient(n);
    Mod32(Wrap64(n), q * TWO32);
  }

  /** A number written in base eight. */
  function OctalText(n: nat): string {
    if n < 8 then [Digit(n)] else OctalText(n / 8) + [Digit(n % 8)]
  }

  lemma {:induction false} OctalReads(zeros: string, n: nat)
    requires forall i :: 0 <= i < |zeros| ==> zeros[i] == '0'
    ensures OctalText(n) != "" && Octal(zeros + OctalText(n)) && OctalValue(zeros + OctalText(n)) == n
  {
    var s := zeros + OctalText(n);
    assert s[|s| - 1] == Digit(n % 8);
    if n < 8 {
      assert s[..|s| - 1] == zeros;
      ZerosRead(zeros);
    } else {
      OctalReads(zeros, n / 8);
      assert s[..|s| - 1] == zeros + OctalText(n / 8);
    }
  }

  lemma {:induction false} ZerosRead(zeros: string)
    requires forall i :: 0 <= i < |zeros| ==> zeros[i] == '0'
    ensures Octal(zeros) && OctalValue(zeros) == 0
  {
    if zeros != [] {
      ZerosRead(zeros[..|zeros| - 1]);
    }
  }

  /** The prefix goes, whatever follows it: "0o" alone is the empty string, which reads as 0. */
  lemma PrefixGoes(s: string)
    ensures Digits("0o" + s) == s
  {
    assert ("0o" + s)[..2] == "0o" && ("0o" + s)[2..] == s;
  }

  /** MODES. The base-eight text of a number, with leading zeros or "0o" before it, is the
      mode with that number. */
  lemma ModeOfText(zeros: string, n: nat)
    requires forall i :: 0 <= i < |zeros| ==> zeros[i] == '0'
    ensures var s := zeros + OctalText(n);
            && Digits(s) == Digits("0o" + s) == s
            && Octal(s) && OctalValue(s) == n
  {
    OctalReads(zeros, n);
    var s := zeros + OctalText(n);
    PrefixGoes(s);
    if |s| >= 2 {
      assert '0' <= s[1] <= '7' && s[..2][1] == s[1] && "0o"[1] == 'o';
    }
  }

  /** A file of one byte whose end is met by a read of its own: the byte is sent, the final
      chunk is empty, and the size reported is 0. */
  method LateEofReportsZero(cmd: string, mode: nat) returns (sent: seq<Chunk>, r: Sent)
    ensures Transfer(cmd, 0, [1], sent) && r == Finished(0, mode)
  {
    var ts := [Got(1, NoError, true), Got(0, Eof, true)];
    assert ts[1..] == [Got(0, Eof, true)];
    var content: Bytes := [1];
    assert ReadsAll(content[1..], ts[1..]);
    sent, r := SendPull(cmd, Regular(1, mode), content, ts);
  }
}
