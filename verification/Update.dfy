/** Signed self-update as file-system steps, with a power loss between any two.

`Disk.left` is the number of file operations the machine still gets to carry
out: after that every operation silently does nothing, which is what a crash
at that point leaves behind. Proving something for every `left` therefore
proves it for every crash point. Names are those next to the executable; the
verified download lives in a fresh temporary directory of its own.
*/
module Update {
  import opened Basics
  import opened Version

  datatype Name = Exec | New | Pending | PendingSig

  type Files = map<Name, Bytes>

  /** `signed(b, s)`: s is a valid signature of b under the pinned key. */
  type Signed = (Bytes, Bytes) -> bool

  datatype Op =
    | Create(name: Name)
    | Write(name: Name, piece: Bytes)
    | Rename(from: Name, to: Name)
    | Remove(name: Name)

  function Apply(fs: Files, op: Op): Files {
    match op
    case Create(n) => fs[n := []]
    case Write(n, piece) => if n in fs then fs[n := fs[n] + piece] else fs
    case Rename(a, b) => if a in fs && a != b then (fs - {a})[b := fs[a]] else fs
    case Remove(n) => fs - {n}
  }

  function ApplyAll(fs: Files, ops: seq<Op>): Files
    decreases |ops|
  {
    if ops == [] then fs else ApplyAll(Apply(fs, ops[0]), ops[1..])
  }

  datatype Machine = Machine(files: Files, left: nat)

  /** Carry out operations until they or the power run out. */
  function Perform(m: Machine, ops: seq<Op>): Machine
    decreases |ops|
  {
    if ops == [] || m.left == 0 then m
    else Perform(Machine(Apply(m.files, ops[0]), m.left - 1), ops[1..])
  }

  lemma {:induction false} PerformAppend(m: Machine, a: seq<Op>, b: seq<Op>)
    ensures Perform(m, a + b) == Perform(Perform(m, a), b)
    decreases |a|
  {
    if a == [] {
      assert a + b == b;
    } else if m.left > 0 {
      assert (a + b)[1..] == a[1..] + b;
      PerformAppend(Machine(Apply(m.files, a[0]), m.left - 1), a[1..], b);
    }
  }

  lemma {:induction false} ApplyAllAppend(fs: Files, a: seq<Op>, b: seq<Op>)
    ensures ApplyAll(fs, a + b) == ApplyAll(ApplyAll(fs, a), b)
    decreases |a|
  {
    if a == [] {
      assert a + b == b;
    } else {
      assert (a + b)[1..] == a[1..] + b;
      ApplyAllAppend(Apply(fs, a[0]), a[1..], b);
    }
  }

  lemma {:induction false} PerformEnough(fs: Files, left: nat, ops: seq<Op>)
    requires left >= |ops|
    ensures Perform(Machine(fs, left), ops).files == ApplyAll(fs, ops)
    decreases |ops|
  {
    if ops != [] {
      PerformEnough(Apply(fs, ops[0]), left - 1, ops[1..]);
    }
  }

  // ---- what the operating system may answer ----

  /** How copying a file goes: nothing opened, stopped after some pieces, failed on
      close, or done. The pieces are the writes it is made of. */
  datatype CopyAnswer =
    | CannotOpen
    | Stopped(pieces: seq<Bytes>)
    | CloseFailed(pieces: seq<Bytes>)
    | Copied(pieces: seq<Bytes>)

  datatype RenameAnswer = Renamed | InUse | OtherError

  datatype InstallAnswers = InstallAnswers(
    copyNew: CopyAnswer,
    renameExec: RenameAnswer,
    renamePending: bool,
    copySig: CopyAnswer)

  function Concat(pieces: seq<Bytes>): Bytes {
    if pieces == [] then [] else Concat(pieces[..|pieces| - 1]) + pieces[|pieces| - 1]
  }

  predicate LegalCopy(content: Bytes, a: CopyAnswer) {
    match a
    case CannotOpen => true
    case Stopped(pieces) => Concat(pieces) <= content
    case CloseFailed(pieces) => Concat(pieces) == content
    case Copied(pieces) => Concat(pieces) == content
  }

  predicate LegalInstall(bin: Bytes, sig: Bytes, a: InstallAnswers) {
    LegalCopy(bin, a.copyNew) && LegalCopy(sig, a.copySig)
  }

  // ---- copy and install as operation lists ----

  function Writes(n: Name, pieces: seq<Bytes>): (ops: seq<Op>)
    ensures |ops| == |pieces|
  {
    if pieces == [] then []
    else Writes(n, pieces[..|pieces| - 1]) + [Write(n, pieces[|pieces| - 1])]
  }

  lemma OneMoreWrite(start: Machine, dst: Name, pieces: seq<Bytes>, i: nat)
    requires i < |pieces|
    ensures Perform(Perform(start, [Create(dst)] + Writes(dst, pieces[..i])), [Write(dst, pieces[i])])
         == Perform(start, [Create(dst)] + Writes(dst, pieces[..i + 1]))
  {
    var before := [Create(dst)] + Writes(dst, pieces[..i]);
    assert pieces[..i + 1][..i] == pieces[..i];
    assert before + [Write(dst, pieces[i])] == [Create(dst)] + Writes(dst, pieces[..i + 1]);
    PerformAppend(start, before, [Write(dst, pieces[i])]);
  }

  function CopyOps(dst: Name, a: CopyAnswer): seq<Op> {
    match a
    case CannotOpen => []
    case Stopped(pieces) => [Create(dst)] + Writes(dst, pieces) + [Remove(dst)]
    case CloseFailed(pieces) => [Create(dst)] + Writes(dst, pieces)
    case Copied(pieces) => [Create(dst)] + Writes(dst, pieces)
  }

  datatype Installed = Replaced | Staged | InstallError

  function InstallOps(a: InstallAnswers): seq<Op> {
    var copy := CopyOps(New, a.copyNew);
    if !a.copyNew.Copied? then copy
    else
      match a.renameExec
      case Renamed => copy + [Rename(New, Exec)]
      case OtherError => copy + [Remove(New)]
      case InUse =>
        if !a.renamePending then copy + [Remove(New)]
        else
          copy + [Rename(New, Pending)] + CopyOps(PendingSig, a.copySig)
          + (if a.copySig.Copied? then [] else [Remove(Pending)])
  }

  function InstallResult(a: InstallAnswers): Installed {
    if !a.copyNew.Copied? then InstallError
    else
      match a.renameExec
      case Renamed => Replaced
      case OtherError => InstallError
      case InUse => if a.renamePending && a.copySig.Copied? then Staged else InstallError
  }

  /** The directory of the executable. */
  class Disk {
    var files: Files
    var left: nat

    constructor (files: Files, left: nat)
      ensures State() == Machine(files, left)
    {
      this.files, this.left := files, left;
    }

    ghost function State(): Machine
      reads this
    {
      Machine(files, left)
    }

    method Do(op: Op)
      modifies this
      ensures State() == Perform(old(State()), [op])
    {
      assert [op][1..] == [];
      if left > 0 {
        files := Apply(files, op);
        left := left - 1;
      }
    }

    method CopyFile(dst: Name, a: CopyAnswer) returns (ok: bool)
      modifies this
      ensures State() == Perform(old(State()), CopyOps(dst, a))
      ensures ok == a.Copied?
    {
      if a.CannotOpen? {
        return false;
      }
      ghost var start := State();
      Do(Create(dst));
      ghost var done := [Create(dst)];
      for i := 0 to |a.pieces|
        invariant State() == Perform(start, [Create(dst)] + Writes(dst, a.pieces[..i]))
      {
        OneMoreWrite(start, dst, a.pieces, i);
        Do(Write(dst, a.pieces[i]));
      }
      assert a.pieces[..|a.pieces|] == a.pieces;
      if a.Stopped? {
        PerformAppend(start, [Create(dst)] + Writes(dst, a.pieces), [Remove(dst)]);
        Do(Remove(dst));
        return false;
      }
      return a.Copied?;
    }

    method Install(a: InstallAnswers) returns (r: Installed)
      modifies this
      ensures State() == Perform(old(State()), InstallOps(a))
      ensures r == InstallResult(a)
    {
      ghost var start := State();
      ghost var copy := CopyOps(New, a.copyNew);
      var ok := CopyFile(New, a.copyNew);
      if !ok {
        return InstallError;
      }
      match a.renameExec {
        case Renamed =>
          PerformAppend(start, copy, [Rename(New, Exec)]);
          Do(Rename(New, Exec));
          return Replaced;
        case OtherError =>
          PerformAppend(start, copy, [Remove(New)]);
          Do(Remove(New));
          return InstallError;
        case InUse =>
          if !a.renamePending {
            PerformAppend(start, copy, [Remove(New)]);
            Do(Remove(New));
            return InstallError;
          }
          r := Stage(a);
          ghost var stage := CopyOps(PendingSig, a.copySig) + (if a.copySig.Copied? then [] else [Remove(Pending)]);
          PerformAppend(start, copy, [Rename(New, Pending)] + stage);
          assert InstallOps(a) == copy + ([Rename(New, Pending)] + stage);
      }
    }

    method Stage(a: InstallAnswers) returns (r: Installed)
      modifies this
      ensures State() == Perform(old(State()), [Rename(New, Pending)]
                + (CopyOps(PendingSig, a.copySig) + (if a.copySig.Copied? then [] else [Remove(Pending)])))
      ensures r == if a.copySig.Copied? then Staged else InstallError
    {
      ghost var start := State();
      ghost var copy, tail := CopyOps(PendingSig, a.copySig), (if a.copySig.Copied? then [] else [Remove(Pending)]);
      PerformAppend(start, [Rename(New, Pending)], copy + tail);
      PerformAppend(Perform(start, [Rename(New, Pending)]), copy, tail);
      Do(Rename(New, Pending));
      var ok := CopyFile(PendingSig, a.copySig);
      if !ok {
        Do(Remove(Pending));
        return InstallError;
      }
      return Staged;
    }
  }
}
