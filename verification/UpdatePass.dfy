/** One update pass, activation of a staged update, and whole histories of both.

`Safety`: whatever is served, whatever fails, wherever the power goes and
whatever lands in the staging files between passes, the executable is the
original one or a file whose signature was checked against the pinned key.
*/
module UpdatePass {
  import opened Basics
  import opened Version
  import opened Update

  datatype Status = Applied | Verified | UpToDate | Refused | NoRelease | Error

  datatype ManifestAnswer = NotFound | Broken | Served(version: string, assets: nat)

  datatype Download = Missing | Failed | Got(content: Bytes)

  /** Everything the server and the machine answer during one pass. */
  datatype Answers = Answers(
    manifest: ManifestAnswer,
    hasAsset: bool,
    sameKey: bool,
    tempDir: bool,
    bin: Download,
    sig: Download,
    shaOk: bool,
    install: InstallAnswers)

  predicate Legal(a: Answers) {
    a.bin.Got? && a.sig.Got? ==> LegalInstall(a.bin.content, a.sig.content, a.install)
  }

  datatype Pass = Pass(signed: Signed, have: string, checkOnly: bool, answers: Answers) {

    /** Why the pass stops before installing, or None if it goes on to install. */
    function Gate(): Option<Status> {
      var a := answers;
      if a.manifest.NotFound? then Some(NoRelease)
      else if a.manifest.Broken? || a.manifest.version == "" || a.manifest.assets == 0 then Some(Error)
      else if !a.hasAsset then Some(NoRelease)
      else if !Newer(have, a.manifest.version) then Some(UpToDate)
      else if !a.sameKey then Some(Refused)
      else if !a.tempDir then Some(Error)
      else if !a.bin.Got? then Some(Error)
      else if a.sig.Missing? then Some(Refused)
      else if a.sig.Failed? then Some(Error)
      else if !a.shaOk then Some(Refused)
      else if !signed(a.bin.content, a.sig.content) then Some(Refused)
      else if checkOnly then Some(Verified)
      else None
    }

    function Ops(): seq<Op> {
      if Gate().Some? then [] else InstallOps(answers.install)
    }

    function Outcome(): Status {
      if Gate().Some? then Gate().value
      else if InstallResult(answers.install).InstallError? then Error
      else Applied
    }
  }

  /** Stat, verify, rename, remove: the operations of `ApplyPending`. */
  function PendingOps(signed: Signed, fs: Files, renameOk: bool): seq<Op> {
    if Pending !in fs then []
    else if PendingSig !in fs || !signed(fs[Pending], fs[PendingSig]) then [Remove(Pending), Remove(PendingSig)]
    else if !renameOk then []
    else [Rename(Pending, Exec), Remove(PendingSig)]
  }

  /** The pass, step by step with its early exits. */
  method Run(disk: Disk, p: Pass) returns (status: Status)
    modifies disk
    ensures status == p.Outcome()
    ensures disk.State() == Perform(old(disk.State()), p.Ops())
    ensures Exec in old(disk.files) && Legal(p.answers) ==>
              && (status in {Verified, UpToDate, Refused, NoRelease} ==> disk.files == old(disk.files))
              && (status != Applied ==> Exec in disk.files && disk.files[Exec] == old(disk.files)[Exec])
              && (status == Applied ==>
                    && !p.checkOnly && p.answers.sameKey && p.answers.manifest.Served?
                    && Newer(p.have, p.answers.manifest.version)
                    && p.answers.bin.Got? && p.answers.sig.Got?
                    && p.signed(p.answers.bin.content, p.answers.sig.content))
  {
    if Exec in disk.files && Legal(p.answers) {
      StatusMeaning(disk.files, disk.left, p);
    }
    var a := p.answers;
    match a.manifest {
      case NotFound => return NoRelease;
      case Broken => return Error;
      case Served(version, assets) =>
        if version == "" || assets == 0 { return Error; }
        if !a.hasAsset { return NoRelease; }
        if !Newer(p.have, version) { return UpToDate; }
    }
    if !a.sameKey { return Refused; }
    if !a.tempDir { return Error; }
    if !a.bin.Got? { return Error; }
    if a.sig.Missing? { return Refused; }
    if a.sig.Failed? { return Error; }
    if !a.shaOk { return Refused; }
    if !p.signed(a.bin.content, a.sig.content) { return Refused; }
    if p.checkOnly { return Verified; }
    var r := disk.Install(a.install);
    return if r.InstallError? then Error else Applied;
  }

  method ApplyPending(disk: Disk, signed: Signed, renameOk: bool) returns (ok: bool)
    modifies disk
    ensures disk.State() == Perform(old(disk.State()), PendingOps(signed, old(disk.files), renameOk))
    ensures ok <==> (Pending in old(disk.files) ==>
              && renameOk && PendingSig in old(disk.files)
              && signed(old(disk.files)[Pending], old(disk.files)[PendingSig]))
  {
    if Pending !in disk.files {
      return true;
    }
    ghost var start := disk.State();
    if PendingSig !in disk.files || !signed(disk.files[Pending], disk.files[PendingSig]) {
      PerformAppend(start, [Remove(Pending)], [Remove(PendingSig)]);
      disk.Do(Remove(Pending));
      disk.Do(Remove(PendingSig));
      return false;
    }
    if !renameOk {
      return false;
    }
    PerformAppend(start, [Rename(Pending, Exec)], [Remove(PendingSig)]);
    disk.Do(Rename(Pending, Exec));
    disk.Do(Remove(PendingSig));
    return true;
  }

  // ---- safety at every crash point ----

  ghost predicate Trusted(signed: Signed, b: Bytes) {
    exists sig: Bytes :: signed(b, sig)
  }

  ghost predicate ExecOk(signed: Signed, original: Bytes, fs: Files) {
    Exec in fs && (fs[Exec] == original || Trusted(signed, fs[Exec]))
  }

  predicate Touches(op: Op, n: Name) {
    match op
    case Create(m) => m == n
    case Write(m, _) => m == n
    case Rename(a, b) => a == n || b == n
    case Remove(m) => m == n
  }

  /** Operations that do not touch a name leave it alone, at every crash point. */
  lemma {:induction false} Untouched(m: Machine, ops: seq<Op>, n: Name)
    requires forall k :: 0 <= k < |ops| ==> !Touches(ops[k], n)
    ensures n in Perform(m, ops).files <==> n in m.files
    ensures n in m.files ==> Perform(m, ops).files[n] == m.files[n]
    decreases |ops|
  {
    if ops != [] && m.left > 0 {
      Untouched(Machine(Apply(m.files, ops[0]), m.left - 1), ops[1..], n);
    }
  }

  lemma {:induction false} WritesTouch(n: Name, pieces: seq<Bytes>, other: Name)
    requires other != n
    ensures forall k :: 0 <= k < |pieces| ==> !Touches(Writes(n, pieces)[k], other)
  {
    if pieces != [] {
      WritesTouch(n, pieces[..|pieces| - 1], other);
    }
  }

  lemma CopyTouches(dst: Name, a: CopyAnswer, other: Name)
    requires other != dst
    ensures forall k :: 0 <= k < |CopyOps(dst, a)| ==> !Touches(CopyOps(dst, a)[k], other)
  {
    if !a.CannotOpen? {
      WritesTouch(dst, a.pieces, other);
    }
  }

  /** A completed copy holds the content. */
  lemma {:induction false} CopyContent(fs: Files, dst: Name, pieces: seq<Bytes>)
    ensures var fs' := ApplyAll(fs, [Create(dst)] + Writes(dst, pieces));
            fs' == fs[dst := Concat(pieces)]
  {
    if pieces == [] {
      assert [Create(dst)] + Writes(dst, pieces) == [Create(dst)];
      assert [Create(dst)][1..] == [];
    } else {
      var init, last := pieces[..|pieces| - 1], pieces[|pieces| - 1];
      CopyContent(fs, dst, init);
      var a := [Create(dst)] + Writes(dst, init);
      ApplyAllAppend(fs, a, [Write(dst, last)]);
      assert [Create(dst)] + Writes(dst, pieces) == a + [Write(dst, last)];
      assert [Write(dst, last)][1..] == [];
    }
  }

  /** Before its last operation a list has had at most a prefix performed. */
  lemma {:induction false} PerformCut(m: Machine, ops: seq<Op>)
    ensures m.left < |ops| ==> Perform(m, ops).left == 0
    ensures m.left >= |ops| ==> Perform(m, ops) == Machine(ApplyAll(m.files, ops), m.left - |ops|)
    decreases |ops|
  {
    if ops != [] && m.left > 0 {
      PerformCut(Machine(Apply(m.files, ops[0]), m.left - 1), ops[1..]);
    }
  }

  /** ATOMIC REPLACEMENT. Wherever an install is cut off, the executable is what it
      was or exactly the new binary, and it is the latter only on `Replaced`. */
  lemma InstallAtomic(fs: Files, left: nat, a: InstallAnswers, bin: Bytes, sig: Bytes)
    requires Exec in fs && LegalInstall(bin, sig, a)
    ensures var fs' := Perform(Machine(fs, left), InstallOps(a)).files;
            && Exec in fs'
            && (fs'[Exec] == fs[Exec] || (fs'[Exec] == bin && InstallResult(a).Replaced?))
  {
    var copy := CopyOps(New, a.copyNew);
    var m := Machine(fs, left);
    CopyTouches(New, a.copyNew, Exec);
    Untouched(m, copy, Exec);
    if a.copyNew.Copied? && a.renameExec.Renamed? {
      PerformAppend(m, copy, [Rename(New, Exec)]);
      PerformCut(m, copy);
      CopyContent(fs, New, a.copyNew.pieces);
      assert [Rename(New, Exec)][1..] == [];
    } else {
      CopyTouches(PendingSig, a.copySig, Exec);
      Untouched(m, InstallOps(a), Exec);
    }
  }

  /** A complete install does what its result says. */
  lemma InstallComplete(fs: Files, left: nat, a: InstallAnswers, bin: Bytes, sig: Bytes)
    requires Exec in fs && LegalInstall(bin, sig, a) && left >= |InstallOps(a)|
    ensures var fs' := Perform(Machine(fs, left), InstallOps(a)).files;
            && (InstallResult(a).Replaced? ==> fs' == (fs - {New})[Exec := bin])
            && (InstallResult(a).Staged? ==> fs' == (fs - {New})[Pending := bin][PendingSig := sig])
  {
    PerformEnough(fs, left, InstallOps(a));
    if InstallResult(a).InstallError? {
      return;
    }
    var copy := CopyOps(New, a.copyNew);
    CopyContent(fs, New, a.copyNew.pieces);
    var fs1 := fs[New := bin];
    if InstallResult(a).Replaced? {
      ApplyAllAppend(fs, copy, [Rename(New, Exec)]);
      assert [Rename(New, Exec)][1..] == [];
      assert fs1 - {New} == fs - {New};
    } else {
      var sigOps := CopyOps(PendingSig, a.copySig);
      assert InstallOps(a) == copy + ([Rename(New, Pending)] + sigOps);
      ApplyAllAppend(fs, copy, [Rename(New, Pending)] + sigOps);
      ApplyAllAppend(fs1, [Rename(New, Pending)], sigOps);
      assert [Rename(New, Pending)][1..] == [];
      assert fs1 - {New} == fs - {New};
      CopyContent((fs - {New})[Pending := bin], PendingSig, a.copySig.pieces);
    }
  }

  /** WHAT A STATUS MEANS. Only an applied pass touches any file, unless installing
      itself failed; it was newer, from the pinned publisher and verified; and in
      every case but `Applied` the executable is untouched at every crash point. */
  lemma StatusMeaning(fs: Files, left: nat, p: Pass)
    requires Exec in fs && Legal(p.answers)
    ensures p.Outcome() in {Verified, UpToDate, Refused, NoRelease} ==> Perform(Machine(fs, left), p.Ops()).files == fs
    ensures p.Outcome() != Applied ==>
              var fs' := Perform(Machine(fs, left), p.Ops()).files;
              Exec in fs' && fs'[Exec] == fs[Exec]
    ensures p.Outcome() == Applied ==>
              && !p.checkOnly && p.answers.sameKey && p.answers.shaOk
              && Newer(p.have, p.answers.manifest.version) && p.answers.manifest.version != ""
              && p.signed(p.answers.bin.content, p.answers.sig.content)
    ensures p.Outcome() == Applied && left >= |p.Ops()| ==>
              var fs' := Perform(Machine(fs, left), p.Ops()).files;
              var bin, sig := p.answers.bin.content, p.answers.sig.content;
              || fs' == (fs - {New})[Exec := bin]
              || fs' == (fs - {New})[Pending := bin][PendingSig := sig]
  {
    if p.Gate().None? {
      InstallAtomic(fs, left, p.answers.install, p.answers.bin.content, p.answers.sig.content);
      if left >= |p.Ops()| {
        InstallComplete(fs, left, p.answers.install, p.answers.bin.content, p.answers.sig.content);
      }
    }
  }

  /** A usable manifest names a release for this platform that the running version may go to. */
  predicate Offered(p: Pass) {
    var m := p.answers.manifest;
    m.Served? && m.version != "" && m.assets > 0 && p.answers.hasAsset && Newer(p.have, m.version)
  }

  /** Binary and signature have been fetched. */
  predicate Fetched(p: Pass) {
    p.answers.tempDir && p.answers.bin.Got? && p.answers.sig.Got?
  }

  predicate Genuine(p: Pass)
    requires Fetched(p)
  {
    p.answers.shaOk && p.signed(p.answers.bin.content, p.answers.sig.content)
  }

  /** STATUSES, EXACTLY. No release: none is published, or none for this platform. Up to date:
      the one published is not newer. Refused: it is newer, but from another
      publisher, unsigned, or not genuine. Verified and applied: it is newer, from
      the pinned publisher, fetched and genuine. Everything else is an error. */
  lemma StatusExactly(p: Pass)
    ensures var a, status := p.answers, p.Outcome();
            var usable := a.manifest.Served? && a.manifest.version != "" && a.manifest.assets > 0;
            var good := Offered(p) && a.sameKey && Fetched(p) && Genuine(p);
            && (status == NoRelease <==> a.manifest.NotFound? || (usable && !a.hasAsset))
            && (status == UpToDate <==> usable && a.hasAsset && !Newer(p.have, a.manifest.version))
            && (status == Refused <==>
                  && Offered(p)
                  && (!a.sameKey || (a.tempDir && a.bin.Got? && a.sig.Missing?) || (Fetched(p) && !Genuine(p))))
            && (status == Verified <==> good && p.checkOnly)
            && (status == Applied <==> good && !p.checkOnly && !InstallResult(a.install).InstallError?)
  {
    hide Newer, InstallResult;
  }

  /** A failed install, not cut off, leaves the executable as it was; its copy is removed again
      unless closing it failed, and nothing stays staged without a signature. */
  lemma FailedInstall(fs: Files, left: nat, a: InstallAnswers)
    requires Exec in fs && InstallResult(a).InstallError? && left >= |InstallOps(a)|
    ensures var fs' := Perform(Machine(fs, left), InstallOps(a)).files;
            && Exec in fs' && fs'[Exec] == fs[Exec]
            && (a.copyNew.Stopped? || a.copyNew.Copied? ==> New !in fs')
            && (a.copyNew.Copied? && a.renameExec.InUse? && a.renamePending ==> Pending !in fs')
  {
    var ops := InstallOps(a);
    PerformEnough(fs, left, ops);
    CopyTouches(New, a.copyNew, Exec);
    CopyTouches(PendingSig, a.copySig, Exec);
    Untouched(Machine(fs, left), ops, Exec);
    if a.copyNew.Copied? && a.renameExec.InUse? && a.renamePending {
      var before := ops[..|ops| - 1];
      assert ops == before + [Remove(Pending)];
      RemovedLast(fs, before, Pending);
      var copy, tail := CopyOps(New, a.copyNew), StageTail(a);
      assert ops == (copy + [Rename(New, Pending)]) + tail;
      ApplyAllAppend(fs, copy + [Rename(New, Pending)], tail);
      ApplyAllAppend(fs, copy, [Rename(New, Pending)]);
      assert [Rename(New, Pending)][1..] == [];
      StageTailSparesNew(a);
      StaysAway(ApplyAll(fs, copy + [Rename(New, Pending)]), tail, New);
    } else if a.copyNew.Stopped? || a.copyNew.Copied? {
      RemovedLast(fs, ops[..|ops| - 1], New);
      assert ops == ops[..|ops| - 1] + [Remove(New)];
    }
  }

  lemma RemovedLast(fs: Files, ops: seq<Op>, n: Name)
    ensures n !in ApplyAll(fs, ops + [Remove(n)])
  {
    ApplyAllAppend(fs, ops, [Remove(n)]);
    assert [Remove(n)][1..] == [];
  }

  lemma StageTailSparesNew(a: InstallAnswers)
    ensures forall k :: 0 <= k < |StageTail(a)| ==> !Touches(StageTail(a)[k], New)
  {
    CopyTouches(PendingSig, a.copySig, New);
  }

  lemma {:induction false} StaysAway(fs: Files, ops: seq<Op>, n: Name)
    requires n !in fs && forall k :: 0 <= k < |ops| ==> !Touches(ops[k], n)
    ensures n !in ApplyAll(fs, ops)
    decreases |ops|
  {
    if ops != [] {
      StaysAway(Apply(fs, ops[0]), ops[1..], n);
    }
  }

  /** A start, not cut off, that finds something staged without a valid signature removes it
      and leaves the executable; it never waits for another start to be refused. */
  lemma RefusedRemoved(signed: Signed, fs: Files, renameOk: bool, left: nat)
    requires Exec in fs && Pending in fs && left >= 2
    requires PendingSig !in fs || !signed(fs[Pending], fs[PendingSig])
    ensures Perform(Machine(fs, left), PendingOps(signed, fs, renameOk)).files == fs - {Pending, PendingSig}
  {
    var ops := [Remove(Pending), Remove(PendingSig)];
    PerformEnough(fs, left, ops);
    assert ops[1..] == [Remove(PendingSig)] && ops[1..][1..] == [];
  }

  // ---- histories ----

  /** A pass or an agent start, cut off after `left` file operations; or anything
      at all happening to the staging files in between, such as a removal that
      failed or a replacement of the staged update. */
  datatype Event =
    | Update(p: Pass, left: nat)
    | Boot(renameOk: bool, left: nat)
    | Meddle(name: Name, content: Option<Bytes>)

  ghost predicate LegalEvent(signed: Signed, e: Event) {
    match e
    case Update(p, _) => Legal(p.answers) && p.signed == signed
    case Boot(_, _) => true
    case Meddle(name, _) => name != Exec
  }

  ghost function Step(signed: Signed, fs: Files, e: Event): Files {
    match e
    case Update(p, left) => Perform(Machine(fs, left), p.Ops()).files
    case Boot(renameOk, left) => Perform(Machine(fs, left), PendingOps(signed, fs, renameOk)).files
    case Meddle(name, None) => fs - {name}
    case Meddle(name, Some(content)) => fs[name := content]
  }

  ghost function History(signed: Signed, fs: Files, es: seq<Event>): Files
    decreases |es|
  {
    if es == [] then fs else History(signed, Step(signed, fs, es[0]), es[1..])
  }

  lemma BootSafe(signed: Signed, original: Bytes, fs: Files, renameOk: bool, left: nat)
    requires ExecOk(signed, original, fs)
    ensures ExecOk(signed, original, Perform(Machine(fs, left), PendingOps(signed, fs, renameOk)).files)
  {
    var ops := PendingOps(signed, fs, renameOk);
    var m := Machine(fs, left);
    if ops != [] && ops[0].Rename? {
      if left > 0 {
        assert Trusted(signed, fs[Pending]);
        Untouched(Machine(Apply(fs, ops[0]), left - 1), ops[1..], Exec);
      }
    } else {
      Untouched(m, ops, Exec);
    }
  }

  lemma StepSafe(signed: Signed, original: Bytes, fs: Files, e: Event)
    requires ExecOk(signed, original, fs) && LegalEvent(signed, e)
    ensures ExecOk(signed, original, Step(signed, fs, e))
  {
    match e
    case Update(p, left) =>
      if p.Gate().None? {
        var bin, sig := p.answers.bin.content, p.answers.sig.content;
        InstallAtomic(fs, left, p.answers.install, bin, sig);
        assert signed(bin, sig);
      }
    case Boot(renameOk, left) => BootSafe(signed, original, fs, renameOk, left);
    case Meddle(_, _) =>
  }

  /** SAFETY. Over any history the executable is there, whole, and either the
      original or carries a signature that verifies under the pinned key. */
  lemma {:induction false} Safety(signed: Signed, original: Bytes, fs: Files, es: seq<Event>)
    requires ExecOk(signed, original, fs)
    requires forall k :: 0 <= k < |es| ==> LegalEvent(signed, es[k])
    ensures ExecOk(signed, original, History(signed, fs, es))
    decreases |es|
  {
    if es != [] {
      StepSafe(signed, original, fs, es[0]);
      Safety(signed, original, Step(signed, fs, es[0]), es[1..]);
    }
  }

  /** ACTIVATION. An update staged because the binary was in use is the executable
      after the next undisturbed start, and nothing of the staging is left. */
  lemma StagedActivates(signed: Signed, fs: Files, p: Pass, left: nat, left': nat)
    requires Exec in fs && Legal(p.answers) && p.signed == signed
    requires p.Gate().None? && InstallResult(p.answers.install).Staged?
    requires left >= |p.Ops()| && left' >= 2
    ensures var fs1 := Step(signed, fs, Update(p, left));
            var fs2 := Step(signed, fs1, Boot(true, left'));
            && Exec in fs1 && fs1[Exec] == fs[Exec]
            && fs2 == (fs - {New, Pending, PendingSig})[Exec := p.answers.bin.content]
  {
    var bin, sig := p.answers.bin.content, p.answers.sig.content;
    InstallComplete(fs, left, p.answers.install, bin, sig);
    InstallAtomic(fs, left, p.answers.install, bin, sig);
    var fs1 := Step(signed, fs, Update(p, left));
    assert fs1 == (fs - {New})[Pending := bin][PendingSig := sig];
    var ops := PendingOps(signed, fs1, true);
    assert ops == [Rename(Pending, Exec), Remove(PendingSig)];
    PerformEnough(fs1, left', ops);
    assert ops[1..] == [Remove(PendingSig)] && [Remove(PendingSig)][1..] == [];
  }

  /** The versions of successive applied passes, each running the one before. */
  ghost predicate PassChain(have: string, ps: seq<Pass>)
    decreases |ps|
  {
    ps == [] || (ps[0].have == have && ps[0].Outcome() == Applied && PassChain(ps[0].answers.manifest.version, ps[1..]))
  }

  function Versions(ps: seq<Pass>): (vs: seq<string>)
    requires forall k :: 0 <= k < |ps| ==> ps[k].answers.manifest.Served?
    ensures |vs| == |ps| && forall k :: 0 <= k < |ps| ==> vs[k] == ps[k].answers.manifest.version
    decreases |ps|
  {
    if ps == [] then [] else [ps[0].answers.manifest.version] + Versions(ps[1..])
  }

  lemma {:induction false} PassChainIsChain(have: string, ps: seq<Pass>)
    requires PassChain(have, ps)
    ensures forall k :: 0 <= k < |ps| ==> ps[k].answers.manifest.Served?
    ensures Chain(have, Versions(ps))
    decreases |ps|
  {
    if ps != [] {
      PassChainIsChain(ps[0].answers.manifest.version, ps[1..]);
      assert forall k :: 0 < k < |ps| ==> ps[k] == ps[1..][k - 1];
      assert Versions(ps)[1..] == Versions(ps[1..]);
    }
  }

  /** If each pass is run by the version applied before it, then from a numeric
      version the applied versions strictly increase. */
  lemma AppliedVersionsClimb(have: string, ps: seq<Pass>, j: nat, k: nat)
    requires PassChain(have, ps) && Parsed(have).Some? && j < k < |ps|
    requires ps[j].answers.manifest.Served? && ps[k].answers.manifest.Served?
    ensures var v, w := Parsed(ps[j].answers.manifest.version), Parsed(ps[k].answers.manifest.version);
            v.Some? && w.Some? && LexLess(Parsed(have).value, v.value) && LexLess(v.value, w.value)
  {
    PassChainIsChain(have, ps);
    ChainClimbs(have, Versions(ps));
  }

  // ---- the version of the executable, and of the process that runs ----

  /** The executable's directory and the version compiled into the running process, which
      need not be that of the executable: a process goes on after it has
      replaced the file it was started from. */
  datatype Agent = Agent(files: Files, have: string)

  /** `stamp` reads the version compiled into a binary. A start takes the version of the
      executable before it activates what is staged. */
  ghost function AgentStep(signed: Signed, stamp: Bytes -> string, a: Agent, e: Event): Agent
    requires Exec in a.files
  {
    Agent(Step(signed, a.files, e), if e.Boot? then stamp(a.files[Exec]) else a.have)
  }

  /** The pass is run by the process of `a`, and a manifest names the version of its binary. */
  ghost predicate AgentEvent(signed: Signed, stamp: Bytes -> string, a: Agent, e: Event) {
    && LegalEvent(signed, e)
    && (e.Update? && e.p.Gate().None? ==>
          e.p.have == a.have && stamp(e.p.answers.bin.content) == e.p.answers.manifest.version)
  }

  /** Does the pass get as far as renaming its binary over the executable? */
  predicate Replaces(p: Pass, left: nat) {
    p.Gate().None? && InstallResult(p.answers.install).Replaced? && left >= |p.Ops()|
  }

  /** Does the start get as far as renaming the staged binary over the executable? */
  predicate Activates(signed: Signed, fs: Files, renameOk: bool, left: nat) {
    Pending in fs && PendingSig in fs && signed(fs[Pending], fs[PendingSig]) && renameOk && left > 0
  }

  predicate Below(v: string, w: string) {
    Parsed(v).Some? && Parsed(w).Some? && LexLess(Parsed(v).value, Parsed(w).value)
  }

  predicate AtLeast(v: string, w: string) {
    Parsed(v).Some? && Parsed(w).Some? && !LexLess(Parsed(v).value, Parsed(w).value)
  }

  /** A pass whose release lies between the version of the process and that of the
      executable, or a start that finds a lower (or unnumbered) version staged. */
  ghost predicate RollsBack(signed: Signed, stamp: Bytes -> string, a: Agent, e: Event)
    requires Exec in a.files
  {
    match e
    case Update(p, left) =>
      && Replaces(p, left)
      && Below(a.have, p.answers.manifest.version)
      && Below(p.answers.manifest.version, stamp(a.files[Exec]))
    case Boot(renameOk, left) =>
      Activates(signed, a.files, renameOk, left) && !AtLeast(stamp(a.files[Pending]), stamp(a.files[Exec]))
    case Meddle(_, _) => false
  }

  lemma ReplacesExactly(fs: Files, left: nat, p: Pass)
    requires Exec in fs && Legal(p.answers)
    ensures var fs' := Perform(Machine(fs, left), p.Ops()).files;
            Exec in fs' && fs'[Exec] == if Replaces(p, left) then p.answers.bin.content else fs[Exec]
  {
    if p.Gate().None? {
      var a := p.answers.install;
      InstallAtomic(fs, left, a, p.answers.bin.content, p.answers.sig.content);
      if Replaces(p, left) {
        InstallComplete(fs, left, a, p.answers.bin.content, p.answers.sig.content);
      } else if InstallResult(a).Replaced? {
        NotYetRenamed(fs, left, a);
      }
    }
  }

  lemma NotYetRenamed(fs: Files, left: nat, a: InstallAnswers)
    requires Exec in fs && InstallResult(a).Replaced? && left < |InstallOps(a)|
    ensures var fs' := Perform(Machine(fs, left), InstallOps(a)).files; Exec in fs' && fs'[Exec] == fs[Exec]
  {
    var copy := CopyOps(New, a.copyNew);
    CopyTouches(New, a.copyNew, Exec);
    Untouched(Machine(fs, left), copy, Exec);
    PerformAppend(Machine(fs, left), copy, [Rename(New, Exec)]);
    PerformCut(Machine(fs, left), copy);
  }

  lemma ActivatesExactly(signed: Signed, fs: Files, renameOk: bool, left: nat)
    requires Exec in fs
    ensures var fs' := Perform(Machine(fs, left), PendingOps(signed, fs, renameOk)).files;
            Exec in fs' && fs'[Exec] == if Activates(signed, fs, renameOk, left) then fs[Pending] else fs[Exec]
  {
    var ops := PendingOps(signed, fs, renameOk);
    if Activates(signed, fs, renameOk, left) {
      Untouched(Machine(Apply(fs, ops[0]), left - 1), ops[1..], Exec);
    } else if ops != [] && left > 0 {
      Untouched(Machine(fs, left), ops, Exec);
    }
  }

  ghost predicate Numeric(stamp: Bytes -> string, a: Agent) {
    Exec in a.files && Parsed(stamp(a.files[Exec])).Some? && Parsed(a.have).Some?
  }

  /** ROLLBACK, EXACTLY. A pass or a start leaves the executable at a version no lower than
      before if and only if it is not one of those that `RollsBack` describes. */
  lemma RollsBackExactly(signed: Signed, stamp: Bytes -> string, a: Agent, e: Event)
    requires Numeric(stamp, a) && AgentEvent(signed, stamp, a, e)
    ensures var a' := AgentStep(signed, stamp, a, e);
            && Exec in a'.files
            && (AtLeast(stamp(a'.files[Exec]), stamp(a.files[Exec])) <==> !RollsBack(signed, stamp, a, e))
  {
    hide Parsed, Perform, PendingOps;
    match e
    case Update(p, left) =>
      ReplacesExactly(a.files, left, p);
      if p.Gate().None? {
        EmptyNotNumeric();
      }
    case Boot(renameOk, left) => ActivatesExactly(signed, a.files, renameOk, left);
    case Meddle(_, _) =>
  }

  /** INSTALL, THEN RESTART. A pass that replaces the executable leaves the process as it is, and
      the process that comes up next has the release's version, whether it
      activates something or not. */
  lemma RestartHasRelease(
      signed: Signed, stamp: Bytes -> string, a: Agent, p: Pass, left: nat, renameOk: bool, left': nat)
    requires Exec in a.files && AgentEvent(signed, stamp, a, Update(p, left)) && Replaces(p, left)
    ensures var a' := AgentStep(signed, stamp, a, Update(p, left));
            && Exec in a'.files && a'.have == a.have
            && AgentStep(signed, stamp, a', Boot(renameOk, left')).have == p.answers.manifest.version
  {
    hide Perform, PendingOps;
    ReplacesExactly(a.files, left, p);
  }

  /** Can be checked before the event: a pass that goes on to install is run by the version
      that is installed, with nothing staged, and nobody puts a lower version in the
      staging place (removing what is there, or failing to, is harmless). */
  ghost predicate Careful(stamp: Bytes -> string, a: Agent, e: Event)
    requires Exec in a.files
  {
    match e
    case Update(p, _) => p.Gate().None? ==> a.have == stamp(a.files[Exec]) && Pending !in a.files
    case Boot(_, _) => true
    case Meddle(name, content) =>
      name == Pending && content.Some? ==> AtLeast(stamp(content.value), stamp(a.files[Exec]))
  }

  /** The executable's version is numeric, and whatever is staged is no lower. */
  ghost predicate StagedAbove(stamp: Bytes -> string, fs: Files) {
    && Exec in fs && Parsed(stamp(fs[Exec])).Some?
    && (Pending in fs ==> AtLeast(stamp(fs[Pending]), stamp(fs[Exec])))
  }

  lemma {:induction false} StagesOnly(fs: Files, left: nat, ops: seq<Op>, bin: Bytes)
    requires forall k :: 0 <= k < |ops| ==> !Touches(ops[k], Pending) || ops[k] == Remove(Pending)
    requires Pending in fs ==> fs[Pending] == bin
    ensures var fs' := Perform(Machine(fs, left), ops).files; Pending in fs' ==> fs'[Pending] == bin
    decreases |ops|
  {
    if ops != [] && left > 0 {
      StagesOnly(Apply(fs, ops[0]), left - 1, ops[1..], bin);
    }
  }

  /** An install that finds nothing staged stages nothing but its own binary, wherever it
      is cut off. */
  lemma InstallStages(fs: Files, left: nat, a: InstallAnswers, bin: Bytes, sig: Bytes)
    requires Pending !in fs && LegalInstall(bin, sig, a)
    ensures var fs' := Perform(Machine(fs, left), InstallOps(a)).files; Pending in fs' ==> fs'[Pending] == bin
  {
    CopyTouches(New, a.copyNew, Pending);
    if a.copyNew.Copied? && a.renameExec.InUse? && a.renamePending {
      StageStages(fs, left, a, bin);
    } else {
      Untouched(Machine(fs, left), InstallOps(a), Pending);
    }
  }

  lemma StageStages(fs: Files, left: nat, a: InstallAnswers, bin: Bytes)
    requires Pending !in fs && LegalCopy(bin, a.copyNew)
    requires a.copyNew.Copied? && a.renameExec.InUse? && a.renamePending
    ensures var fs' := Perform(Machine(fs, left), InstallOps(a)).files; Pending in fs' ==> fs'[Pending] == bin
  {
    hide Perform, CopyOps, Touches;
    var copy, tail := CopyOps(New, a.copyNew), StageTail(a);
    var m := Machine(fs, left);
    assert InstallOps(a) == copy + ([Rename(New, Pending)] + tail);
    PerformAppend(m, copy, [Rename(New, Pending)] + tail);
    CopyTouches(New, a.copyNew, Pending);
    Untouched(m, copy, Pending);
    var m1 := Perform(m, copy);
    PerformCons(m1, Rename(New, Pending), tail);
    if m1.left > 0 {
      CopyDone(fs, left, New, a.copyNew, bin);
      StageTailTouches(a);
      StagesOnly(Apply(m1.files, Rename(New, Pending)), m1.left - 1, tail, bin);
    }
  }

  /** What an install does once its binary is staged. */
  function StageTail(a: InstallAnswers): seq<Op> {
    CopyOps(PendingSig, a.copySig) + (if a.copySig.Copied? then [] else [Remove(Pending)])
  }

  lemma StageTailTouches(a: InstallAnswers)
    ensures forall k :: 0 <= k < |StageTail(a)| ==>
              !Touches(StageTail(a)[k], Pending) || StageTail(a)[k] == Remove(Pending)
  {
    CopyTouches(PendingSig, a.copySig, Pending);
  }

  lemma {:induction false} PerformCons(m: Machine, op: Op, ops: seq<Op>)
    ensures Perform(m, [op] + ops) == if m.left == 0 then m else Perform(Machine(Apply(m.files, op), m.left - 1), ops)
  {
    assert ([op] + ops)[1..] == ops;
  }

  /** If the power outlasts a copy, the copy is whole. */
  lemma CopyDone(fs: Files, left: nat, dst: Name, a: CopyAnswer, content: Bytes)
    requires a.Copied? && LegalCopy(content, a) && Perform(Machine(fs, left), CopyOps(dst, a)).left > 0
    ensures Perform(Machine(fs, left), CopyOps(dst, a)).files == fs[dst := content]
  {
    PerformCut(Machine(fs, left), CopyOps(dst, a));
    CopyContent(fs, dst, a.pieces);
  }

  lemma StartStages(signed: Signed, fs: Files, renameOk: bool, left: nat)
    ensures var fs' := Perform(Machine(fs, left), PendingOps(signed, fs, renameOk)).files;
            Pending in fs' ==> Pending in fs && fs'[Pending] == fs[Pending] && !Activates(signed, fs, renameOk, left)
  {
    var ops := PendingOps(signed, fs, renameOk);
    if ops != [] && left > 0 {
      Untouched(Machine(Apply(fs, ops[0]), left - 1), ops[1..], Pending);
    }
  }

  /** A careful event does not lower the executable, nor leave anything staged below it. */
  lemma CarefulStep(signed: Signed, stamp: Bytes -> string, a: Agent, e: Event)
    requires StagedAbove(stamp, a.files) && AgentEvent(signed, stamp, a, e) && Careful(stamp, a, e)
    ensures var fs := AgentStep(signed, stamp, a, e).files;
            StagedAbove(stamp, fs) && AtLeast(stamp(fs[Exec]), stamp(a.files[Exec]))
  {
    hide Parsed, Perform, PendingOps, InstallOps;
    match e
    case Update(p, left) =>
      ReplacesExactly(a.files, left, p);
      if p.Gate().None? {
        EmptyNotNumeric();
        InstallStages(a.files, left, p.answers.install, p.answers.bin.content, p.answers.sig.content);
        if InstallResult(p.answers.install).Replaced? {
          InstallOneWay(a.files, left, p.answers.install);
        }
      } else {
        NothingDone(Machine(a.files, left));
      }
    case Boot(renameOk, left) =>
      ActivatesExactly(signed, a.files, renameOk, left);
      StartStages(signed, a.files, renameOk, left);
    case Meddle(_, _) =>
  }

  lemma NothingDone(m: Machine)
    ensures Perform(m, []) == m
  {
  }

  /** An install that replaces the executable stages nothing. */
  lemma InstallOneWay(fs: Files, left: nat, a: InstallAnswers)
    requires Pending !in fs && InstallResult(a).Replaced?
    ensures Pending !in Perform(Machine(fs, left), InstallOps(a)).files
  {
    CopyTouches(New, a.copyNew, Pending);
    Untouched(Machine(fs, left), InstallOps(a), Pending);
  }

  ghost predicate CarefulRun(signed: Signed, stamp: Bytes -> string, a: Agent, es: seq<Event>)
    decreases |es|
  {
    es == [] ||
    (Exec in a.files && AgentEvent(signed, stamp, a, es[0]) && Careful(stamp, a, es[0])
     && CarefulRun(signed, stamp, AgentStep(signed, stamp, a, es[0]), es[1..]))
  }

  /** The executable's version after each event. */
  ghost function Stamps(signed: Signed, stamp: Bytes -> string, a: Agent, es: seq<Event>): seq<string>
    requires CarefulRun(signed, stamp, a, es)
    decreases |es|
  {
    if es == [] then []
    else
      var a' := AgentStep(signed, stamp, a, es[0]);
      [if Exec in a'.files then stamp(a'.files[Exec]) else ""] + Stamps(signed, stamp, a', es[1..])
  }

  lemma AtLeastTransitive(u: string, v: string, w: string)
    requires AtLeast(u, v) && AtLeast(v, w)
    ensures AtLeast(u, w)
  {
    hide Parsed;
  }

  /** Versions that never fall, from `start` on. */
  predicate NonDecreasing(start: string, vs: seq<string>) {
    && (forall k :: 0 <= k < |vs| ==> AtLeast(vs[k], start))
    && (forall j, k :: 0 <= j < k < |vs| ==> AtLeast(vs[k], vs[j]))
  }

  lemma NonDecreasingCons(start: string, v: string, vs: seq<string>)
    requires AtLeast(v, start) && NonDecreasing(v, vs)
    ensures NonDecreasing(start, [v] + vs)
  {
    forall k | 0 <= k < |vs|
      ensures AtLeast(vs[k], start)
    {
      AtLeastTransitive(vs[k], v, start);
    }
  }

  /** NO ROLLBACK. Over any passes and starts, cut off anywhere, the executable's version
      never falls, as long as nobody stages a lower version by hand and no pass installs
      from an older process or beside something staged. */
  lemma {:induction false} NeverFalls(signed: Signed, stamp: Bytes -> string, a: Agent, es: seq<Event>)
    requires StagedAbove(stamp, a.files) && CarefulRun(signed, stamp, a, es)
    ensures NonDecreasing(stamp(a.files[Exec]), Stamps(signed, stamp, a, es))
    decreases |es|
  {
    hide Parsed, AgentEvent, Careful, NonDecreasing, AtLeast, Step;
    if es == [] {
      NothingFalls(stamp(a.files[Exec]));
    } else {
      CarefulStep(signed, stamp, a, es[0]);
      var a' := AgentStep(signed, stamp, a, es[0]);
      NeverFalls(signed, stamp, a', es[1..]);
      NonDecreasingCons(stamp(a.files[Exec]), stamp(a'.files[Exec]), Stamps(signed, stamp, a', es[1..]));
    }
  }

  lemma NothingFalls(start: string)
    ensures NonDecreasing(start, [])
  {
  }

  /** STAGE, START, OLDER RELEASE. An update is staged, a start activates it, and the process
      then running, which is still the old version, applies a release that lies
      between the two: the executable falls back. */
  lemma OlderReleaseApplied(signed: Signed, stamp: Bytes -> string, a: Agent, high: Pass, low: Pass)
    requires Exec in a.files && a.have == stamp(a.files[Exec])
    requires AgentEvent(signed, stamp, a, Update(high, |high.Ops()|))
    requires AgentEvent(signed, stamp, a, Update(low, |low.Ops()|))
    requires high.Gate().None? && InstallResult(high.answers.install).Staged?
    requires low.Gate().None? && InstallResult(low.answers.install).Replaced?
    requires Below(low.answers.manifest.version, high.answers.manifest.version)
    ensures var a1 := AgentStep(signed, stamp, a, Update(high, |high.Ops()|));
            && Exec in a1.files
            && var a2 := AgentStep(signed, stamp, a1, Boot(true, 2));
            && Exec in a2.files && stamp(a2.files[Exec]) == high.answers.manifest.version && a2.have == a.have
            && var a3 := AgentStep(signed, stamp, a2, Update(low, |low.Ops()|));
            && Exec in a3.files && stamp(a3.files[Exec]) == low.answers.manifest.version
  {
    hide Parsed, Perform;
    var a1 := AgentStep(signed, stamp, a, Update(high, |high.Ops()|));
    StagedActivates(signed, a.files, high, |high.Ops()|, 2);
    var a2 := AgentStep(signed, stamp, a1, Boot(true, 2));
    ReplacesExactly(a2.files, |low.Ops()|, low);
  }

  /** A pass run by version 1 that is served a release of one digit, whose binary is that digit. */
  function DigitPass(n: Byte, rename: RenameAnswer): Pass
    requires n <= 9
  {
    var install := InstallAnswers(Copied([[n]]), rename, true, Copied([[]]));
    Pass((b, s) => true, "1", false,
         Answers(Served(VersionOf(n), 1), true, true, true, Got([n]), Got([]), true, install))
  }

  function VersionOf(n: Byte): string
    requires n <= 9
  {
    [Digit(n as nat)]
  }

  function DigitStamp(b: Bytes): string {
    if b != [] && b[0] <= 9 then VersionOf(b[0]) else ""
  }

  lemma DigitNewer(n: Byte)
    requires 1 < n <= 9
    ensures Newer("1", VersionOf(n)) && VersionOf(n) != ""
    ensures Parsed(VersionOf(n)) == Some([n as int, 0, 0])
  {
    hide Parsed;
    OneDigit('1');
    OneDigit(Digit(n as nat));
    assert "1" == ['1'];
  }

  lemma DigitLegal(n: Byte, rename: RenameAnswer)
    requires n <= 9
    ensures Legal(DigitPass(n, rename).answers)
  {
    var none: Bytes := [];
    assert [[n]][..0] == [] && Concat([[n]]) == [n];
    assert [none][..0] == [] && Concat([none]) == none;
  }

  lemma DigitPassGoesOn(n: Byte, rename: RenameAnswer)
    requires 1 < n <= 9
    ensures DigitPass(n, rename).Gate().None? && Legal(DigitPass(n, rename).answers)
    ensures Parsed(VersionOf(n)) == Some([n as int, 0, 0])
  {
    hide Parsed, Newer, VersionOf, Legal;
    DigitNewer(n);
    DigitLegal(n, rename);
  }

  /** Version 1 stages version 3, is started again, and then applies version 2. */
  lemma OlderReleaseInput()
    ensures var high, low := DigitPass(3, InUse), DigitPass(2, Renamed);
            var signed := high.signed;
            var a1 := AgentStep(signed, DigitStamp, Agent(map[Exec := [1]], "1"), Update(high, |high.Ops()|));
            && Exec in a1.files
            && var a2 := AgentStep(signed, DigitStamp, a1, Boot(true, 2));
            && Exec in a2.files && DigitStamp(a2.files[Exec]) == "3" && a2.have == "1"
            && var a3 := AgentStep(signed, DigitStamp, a2, Update(low, |low.Ops()|));
            && Exec in a3.files && DigitStamp(a3.files[Exec]) == "2"
  {
    hide Parsed, Pass.Gate, Pass.Ops, Perform;
    DigitPassGoesOn(3, InUse);
    DigitPassGoesOn(2, Renamed);
    var high, low := DigitPass(3, InUse), DigitPass(2, Renamed);
    assert high.signed == low.signed;
    OlderReleaseApplied(high.signed, DigitStamp, Agent(map[Exec := [1]], "1"), high, low);
  }

  /** Version 1 stages version 3, replaces itself by version 4 with that still staged, and is
      started: the start brings version 3 back. Both passes are run by the version
      that is installed. */
  lemma StaleStagedInput()
    ensures var low, high := DigitPass(3, InUse), DigitPass(4, Renamed);
            var signed, a := low.signed, Agent(map[Exec := [1]], "1");
            var e1, e2 := Update(low, |low.Ops()|), Update(high, |high.Ops()|);
            && StagedAbove(DigitStamp, a.files) && AgentEvent(signed, DigitStamp, a, e1) && Careful(DigitStamp, a, e1)
            && var a1 := AgentStep(signed, DigitStamp, a, e1);
            && Exec in a1.files && Pending in a1.files && a1.have == DigitStamp(a1.files[Exec]) == "1"
            && AgentEvent(signed, DigitStamp, a1, e2)
            && var a2 := AgentStep(signed, DigitStamp, a1, e2);
            && Exec in a2.files && DigitStamp(a2.files[Exec]) == "4"
            && var a3 := AgentStep(signed, DigitStamp, a2, Boot(true, 2));
            && Exec in a3.files && DigitStamp(a3.files[Exec]) == "3"
  {
    hide Parsed, Pass.Gate, Pass.Ops, Legal, Perform, InstallOps, PendingOps;
    var low, high := DigitPass(3, InUse), DigitPass(4, Renamed);
    var signed, a := low.signed, Agent(map[Exec := [1]], "1");
    DigitPassGoesOn(3, InUse);
    DigitPassGoesOn(4, Renamed);
    assert high.signed == signed;
    OneIsNumeric();
    DigitInstalls(low, a.files);
    var a1 := AgentStep(signed, DigitStamp, a, Update(low, |low.Ops()|));
    assert a1.files == map[Exec := [1], Pending := [3], PendingSig := []];
    DigitInstalls(high, a1.files);
    var a2 := AgentStep(signed, DigitStamp, a1, Update(high, |high.Ops()|));
    assert a2.files == map[Exec := [4], Pending := [3], PendingSig := []];
    ActivatesExactly(signed, a2.files, true, 2);
  }

  lemma OneIsNumeric()
    ensures DigitStamp([1]) == "1" && Parsed("1").Some?
  {
    OneDigit('1');
    assert "1" == ['1'];
  }

  lemma DigitInstalls(p: Pass, fs: Files)
    requires Exec in fs && Legal(p.answers) && p.Gate().None? && !InstallResult(p.answers.install).InstallError?
    ensures var fs' := Perform(Machine(fs, |p.Ops()|), p.Ops()).files;
            var bin, sig := p.answers.bin.content, p.answers.sig.content;
            fs' == if InstallResult(p.answers.install).Replaced? then (fs - {New})[Exec := bin]
                   else (fs - {New})[Pending := bin][PendingSig := sig]
  {
    InstallComplete(fs, |p.Ops()|, p.answers.install, p.answers.bin.content, p.answers.sig.content);
  }
}
