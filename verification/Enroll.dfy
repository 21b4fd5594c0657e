/** Enrolling once, and the identity an agent holds in memory. */
module Enroll {
  import opened Basics

  datatype Tls = Tls(cert: string, key: string, root: string)

  datatype Identity = Identity(device: string, jwt: string, host: string, enrolledAt: int, tls: Option<Tls>)

  predicate Complete(id: Identity) {
    id.device != "" && id.jwt != ""
  }

  /** What reading the identity file yields. */
  datatype Loaded = Nothing | Unreadable | Found(id: Identity)

  datatype Response = Response(device: string, jwt: string, cert: string, key: string, root: string)

  /** An enroll call: answered, failed for now (connection, 5xx), or refused for good. */
  datatype Answer = Answered(resp: Response) | Transient | Definitive

  datatype Boot = Boot(
    bootstrap: string,
    host: string,
    now: int,
    http: Option<Answer>,
    grpc: Answer,
    saveOk: bool)

  datatype Outcome =
    | Reused(id: Identity)
    | Enrolled(id: Identity)
    | EnrolledNotSaved(id: Identity)
    | Stopped

  /** The answer that decides: HTTP first, gRPC only after a transient HTTP failure. */
  function Deciding(b: Boot): Answer {
    if b.http.Some? && !b.http.value.Transient? then b.http.value else b.grpc
  }

  function FromResponse(b: Boot, r: Response): Identity {
    Identity(r.device, r.jwt, b.host, b.now,
             if r.cert != "" && r.key != "" && r.root != "" then Some(Tls(r.cert, r.key, r.root)) else None)
  }

  /** The identity has the device and token of the response, and its certificate material if
      that is complete. */
  predicate MadeFrom(b: Boot, r: Response, id: Identity) {
    && id.device == r.device && id.jwt == r.jwt && id.host == b.host && id.enrolledAt == b.now
    && (id.tls.Some? <==> r.cert != "" && r.key != "" && r.root != "")
    && (id.tls.Some? ==> id.tls.value.cert == r.cert && id.tls.value.key == r.key && id.tls.value.root == r.root)
  }

  /** What a start comes to, and how many enroll requests it makes on the way. */
  datatype Attempt = Attempt(out: Outcome, httpCalls: nat, grpcCalls: nat)

  /** A start that finds `load`, in one expression. */
  function Ensured(load: Loaded, b: Boot): Attempt {
    match load
    case Found(id) => Attempt(if Complete(id) then Reused(id) else Stopped, 0, 0)
    case Unreadable => Attempt(Stopped, 0, 0)
    case Nothing =>
      if b.bootstrap == "" then Attempt(Stopped, 0, 0)
      else
        Attempt(match Deciding(b)
                case Answered(r) =>
                  if r.device == "" || r.jwt == "" then Stopped
                  else if b.saveOk then Enrolled(FromResponse(b, r))
                  else EnrolledNotSaved(FromResponse(b, r))
                case _ => Stopped,
                if b.http.Some? then 1 else 0,
                if b.http.Some? && !b.http.value.Transient? then 0 else 1)
  }

  /** An agent start. `httpCalls` and `grpcCalls` count the enroll requests made. */
  method EnsureEnrolled(load: Loaded, b: Boot) returns (out: Outcome, httpCalls: nat, grpcCalls: nat)
    ensures Attempt(out, httpCalls, grpcCalls) == Ensured(load, b)
    ensures load.Found? && load.id.device != "" && load.id.jwt != "" ==> out == Reused(load.id)
    ensures load.Unreadable? || (load.Found? && (load.id.device == "" || load.id.jwt == "")) ==> out == Stopped
    ensures !load.Nothing? || b.bootstrap == "" ==> httpCalls == grpcCalls == 0
    ensures load.Nothing? && b.bootstrap == "" ==> out == Stopped
    ensures load.Nothing? && b.bootstrap != "" ==>
              && httpCalls == (if b.http.Some? then 1 else 0)
              && grpcCalls == (if b.http.Some? && !b.http.value.Transient? then 0 else 1)
              && var answer := if b.http.Some? && b.http.value != Transient then b.http.value else b.grpc;
              && (out.Stopped? <==> !answer.Answered? || answer.resp.device == "" || answer.resp.jwt == "")
              && (out.Enrolled? ==> b.saveOk && MadeFrom(b, answer.resp, out.id))
              && (out.EnrolledNotSaved? ==> !b.saveOk && MadeFrom(b, answer.resp, out.id))
              && !out.Reused?
  {
    httpCalls, grpcCalls := 0, 0;
    match load {
      case Unreadable => return Stopped, 0, 0;
      case Found(id) =>
        if id.device == "" || id.jwt == "" {
          return Stopped, 0, 0;
        }
        return Reused(id), 0, 0;
      case Nothing =>
    }
    if b.bootstrap == "" {
      return Stopped, 0, 0;
    }
    var resp: Option<Response> := None;
    if b.http.Some? {
      httpCalls := 1;
      match b.http.value {
        case Definitive => return Stopped, httpCalls, grpcCalls;
        case Transient =>
        case Answered(r) => resp := Some(r);
      }
    }
    if resp.None? {
      grpcCalls := 1;
      if !b.grpc.Answered? {
        return Stopped, httpCalls, grpcCalls;
      }
      resp := Some(b.grpc.resp);
    }
    if resp.value.device == "" || resp.value.jwt == "" {
      return Stopped, httpCalls, grpcCalls;
    }
    var id := Identity(resp.value.device, resp.value.jwt, b.host, b.now, None);
    if resp.value.cert != "" && resp.value.key != "" && resp.value.root != "" {
      id := id.(tls := Some(Tls(resp.value.cert, resp.value.key, resp.value.root)));
    }
    out := if b.saveOk then Enrolled(id) else EnrolledNotSaved(id);
  }

  function Renewed(id: Identity, tok: string): Identity {
    id.(jwt := if tok == "" then id.jwt else tok)
  }

  /** Does a renewal call for a save? */
  predicate Changes(id: Identity, tok: string) {
    tok != "" && tok != id.jwt
  }

  /** Certificate and key change together; the org root does not. */
  function Swapped(id: Identity, cert: string, key: string): Identity
    requires id.tls.Some?
  {
    id.(tls := Some(Tls(cert, key, id.tls.value.root)))
  }

  /** The identity shared by the token renewal and the leaf rotation. */
  class Live {
    var id: Identity
    var liveJwt: string

    constructor (id: Identity)
      ensures this.id == id && liveJwt == id.jwt
    {
      this.id, liveJwt := id, id.jwt;
    }

    /** The renewal hook; `persist` tells whether a save follows. */
    method SetJwt(tok: string) returns (persist: bool)
      requires liveJwt == id.jwt
      modifies this
      ensures persist == Changes(old(id), tok) == (tok != "" && tok != old(id).jwt)
      ensures id == Renewed(old(id), tok) && liveJwt == id.jwt
      ensures id.jwt == (if tok != "" then tok else old(id).jwt) && id == old(id).(jwt := id.jwt)
    {
      if tok == "" {
        return false;
      }
      persist := liveJwt != tok;
      if persist {
        liveJwt := tok;
        id := id.(jwt := tok);
      }
    }

    method SwapLeaf(cert: string, key: string)
      requires id.tls.Some?
      modifies this`id
      ensures id == Swapped(old(id), cert, key)
      ensures id == old(id).(tls := id.tls) && id.tls == Some(Tls(cert, key, old(id).tls.value.root))
    {
      id := id.(tls := Some(id.tls.value.(cert := cert, key := key)));
    }
  }
}

/** The identity file under renewals, rotations, restarts and crashes.

Two goroutines save the identity: the uplink after a token renewal and the
rotator after a leaf swap. Both write the same temporary file, and nothing keeps
their saves apart. Files are modelled as inodes so that a descriptor outlives
a rename.
*/
module IdentityStore {
  import opened Basics
  import opened Enroll

  /** A file is empty, holds one identity's JSON, or something that does not parse. */
  datatype Content = Empty | Torn | Holds(id: Identity)

  datatype Disk = Disk(inodes: map<nat, Content>, next: nat, tmp: Option<nat>, path: Option<nat>)

  /** One goroutine's save: wanted, marshalled, file open, file written. */
  datatype Saver =
    | Idle
    | Wanting
    | Marshalled(snap: Identity)
    | Opened(snap: Identity, fd: nat)
    | Written(snap: Identity, fd: nat)

  datatype Who = Uplink | Rotator

  /** `enrollCalls` counts enroll requests; `pairs` records every certificate and key
      that was issued or swapped in together. */
  datatype System = System(
    disk: Disk,
    live: Option<Identity>,
    uplink: Saver,
    rotator: Saver,
    enrollCalls: nat,
    pairs: set<(string, string)>)

  datatype Event =
    | Start(boot: Boot)
    | Renew(tok: string)
    | Swap(cert: string, key: string)
    | Marshal(who: Who)
    | Open(who: Who, ok: bool)
    | Write(who: Who, ok: bool, intact: bool)
    | Publish(who: Who, ok: bool)
    | Crash

  function Get(s: System, w: Who): Saver {
    if w.Uplink? then s.uplink else s.rotator
  }

  function Set(s: System, w: Who, v: Saver): System {
    if w.Uplink? then s.(uplink := v) else s.(rotator := v)
  }

  function Other(w: Who): Who {
    if w.Uplink? then Rotator else Uplink
  }

  function Load(d: Disk): Loaded {
    if d.path.None? || d.path.value !in d.inodes then Nothing
    else
      match d.inodes[d.path.value]
      case Empty => Unreadable
      case Torn => Unreadable
      case Holds(id) => if Complete(id) then Found(id) else Unreadable
  }

  /** Open with create and truncate. */
  function OpenTmp(d: Disk): (Disk, nat) {
    match d.tmp
    case Some(i) => (d.(inodes := d.inodes[i := Empty]), i)
    case None => (d.(inodes := d.inodes[d.next := Empty], next := d.next + 1, tmp := Some(d.next)), d.next)
  }

  /** A whole save with nobody else about, as the first one is. */
  function SavedAlone(d: Disk, id: Identity): Disk {
    var (d', i) := OpenTmp(d);
    d'.(inodes := d'.inodes[i := Holds(id)], path := Some(i), tmp := None)
  }

  function Pair(id: Identity): set<(string, string)> {
    if id.tls.Some? then {(id.tls.value.cert, id.tls.value.key)} else {}
  }

  /** A start: the agent goes on with a found or a newly enrolled and saved identity. One
      that was not saved makes the start fail. */
  function Started(s: System, b: Boot): System {
    var a := Ensured(Load(s.disk), b);
    var s' := s.(enrollCalls := s.enrollCalls + a.httpCalls + a.grpcCalls);
    match a.out
    case Reused(id) => s'.(live := Some(id))
    case Enrolled(id) => s'.(live := Some(id), disk := SavedAlone(s.disk, id), pairs := s.pairs + Pair(id))
    case EnrolledNotSaved(_) => s'
    case Stopped => s'
  }

  function Step(s: System, e: Event): System {
    match e
    case Start(b) => if s.live.Some? then s else Started(s, b)
    case Renew(tok) =>
      if s.live.Some? && s.uplink.Idle? && Changes(s.live.value, tok)
      then s.(live := Some(Renewed(s.live.value, tok)), uplink := Wanting) else s
    case Swap(cert, key) =>
      if s.live.Some? && s.live.value.tls.Some? && s.rotator.Idle?
      then s.(live := Some(Swapped(s.live.value, cert, key)), rotator := Wanting, pairs := s.pairs + {(cert, key)})
      else s
    case Marshal(w) => if s.live.Some? && Get(s, w).Wanting? then Set(s, w, Marshalled(s.live.value)) else s
    case Open(w, ok) =>
      if !Get(s, w).Marshalled? then s
      else if !ok then Set(s, w, Idle)
      else
        var (d, i) := OpenTmp(s.disk);
        Set(s, w, Opened(Get(s, w).snap, i)).(disk := d)
    case Write(w, ok, intact) =>
      if !Get(s, w).Opened? then s
      else
        var snap, i := Get(s, w).snap, Get(s, w).fd;
        var content := if ok && intact then Holds(snap) else Torn;
        Set(s, w, if ok then Written(snap, i) else Idle).(disk := s.disk.(inodes := s.disk.inodes[i := content]))
    case Publish(w, ok) =>
      if !Get(s, w).Written? then s
      else if s.disk.tmp.None? then Set(s, w, Idle)
      else if ok then Set(s, w, Idle).(disk := s.disk.(path := s.disk.tmp, tmp := None))
      else Set(s, w, Idle).(disk := s.disk.(tmp := None))
    case Crash => s.(live := None, uplink := Idle, rotator := Idle)
  }

  predicate Saving(v: Saver) {
    v.Opened? || v.Written?
  }

  /** A completed write comes out garbled only over bytes that somebody else wrote
      since the file was truncated, such as the end of a longer text. */
  predicate Legal(s: System, e: Event) {
    e.Write? && e.ok && !e.intact && Get(s, e.who).Opened? && Get(s, e.who).fd in s.disk.inodes ==>
      s.disk.inodes[Get(s, e.who).fd] != Empty
  }

  function Run(s: System, es: seq<Event>): System
    decreases |es|
  {
    if es == [] then s else Run(Step(s, es[0]), es[1..])
  }

  predicate LegalRun(s: System, es: seq<Event>)
    decreases |es|
  {
    es == [] || (Legal(s, es[0]) && LegalRun(Step(s, es[0]), es[1..]))
  }

  // ---- stability ----

  /** The same device under the same org root, with a pair that belongs together. */
  predicate Same(origin: Identity, id: Identity, pairs: set<(string, string)>) {
    && Complete(id) && id.device == origin.device && id.host == origin.host && id.enrolledAt == origin.enrolledAt
    && (id.tls.Some? <==> origin.tls.Some?)
    && (id.tls.Some? ==> id.tls.value.root == origin.tls.value.root && (id.tls.value.cert, id.tls.value.key) in pairs)
  }

  predicate SaverOk(origin: Identity, s: System, v: Saver) {
    && (v.Marshalled? || v.Opened? || v.Written? ==> Same(origin, v.snap, s.pairs))
    && (v.Opened? || v.Written? ==> v.fd in s.disk.inodes)
  }

  ghost predicate Ok(origin: Identity, s: System) {
    && s.disk.path.Some? && s.disk.path.value in s.disk.inodes
    && (s.disk.tmp.Some? ==> s.disk.tmp.value in s.disk.inodes)
    && (forall i :: i in s.disk.inodes && s.disk.inodes[i].Holds? ==> Same(origin, s.disk.inodes[i].id, s.pairs))
    && (s.live.Some? ==> Same(origin, s.live.value, s.pairs))
    && SaverOk(origin, s, s.uplink) && SaverOk(origin, s, s.rotator)
  }

  lemma StepOk(origin: Identity, s: System, e: Event)
    requires Ok(origin, s)
    ensures Ok(origin, Step(s, e))
    ensures Step(s, e).enrollCalls == s.enrollCalls
  {
    hide Ok, Started;
    match e
    case Start(b) => if s.live.None? { StartOk(origin, s, b); }
    case Renew(_) => RenewOk(origin, s, e);
    case Swap(cert, key) => SwapOk(origin, s, cert, key);
    case Marshal(_) => MarshalOk(origin, s, e);
    case Open(_, _) => OpenOk(origin, s, e);
    case Write(_, _, _) => WriteOk(origin, s, e);
    case Publish(_, _) => PublishOk(origin, s, e);
    case Crash => CrashOk(origin, s);
  }

  lemma StartOk(origin: Identity, s: System, b: Boot)
    requires Ok(origin, s) && s.live.None?
    ensures Ok(origin, Started(s, b)) && Started(s, b).enrollCalls == s.enrollCalls
  {
    hide Same;
  }

  lemma RenewOk(origin: Identity, s: System, e: Event)
    requires Ok(origin, s) && e.Renew?
    ensures Ok(origin, Step(s, e)) && Step(s, e).enrollCalls == s.enrollCalls
  {
    if s.live.Some? {
      RenewedSame(origin, s.live.value, e.tok, s.pairs);
    }
    hide Same;
  }

  lemma RenewedSame(origin: Identity, id: Identity, tok: string, pairs: set<(string, string)>)
    requires Same(origin, id, pairs)
    ensures Same(origin, Renewed(id, tok), pairs)
  {
  }

  lemma PairsGrow(origin: Identity, s: System, cert: string, key: string)
    requires Ok(origin, s)
    ensures Ok(origin, s.(pairs := s.pairs + {(cert, key)}))
  {
  }

  lemma SwapOk(origin: Identity, s: System, cert: string, key: string)
    requires Ok(origin, s)
    ensures Ok(origin, Step(s, Swap(cert, key))) && Step(s, Swap(cert, key)).enrollCalls == s.enrollCalls
  {
    PairsGrow(origin, s, cert, key);
    if s.live.Some? && s.live.value.tls.Some? {
      SwappedSame(origin, s.live.value, cert, key, s.pairs);
    }
    hide Same;
  }

  lemma SwappedSame(origin: Identity, id: Identity, cert: string, key: string, pairs: set<(string, string)>)
    requires Same(origin, id, pairs) && id.tls.Some?
    ensures Same(origin, Swapped(id, cert, key), pairs + {(cert, key)})
  {
  }

  lemma MarshalOk(origin: Identity, s: System, e: Event)
    requires Ok(origin, s) && e.Marshal?
    ensures Ok(origin, Step(s, e)) && Step(s, e).enrollCalls == s.enrollCalls
  {
    hide Same;
  }

  lemma OpenOk(origin: Identity, s: System, e: Event)
    requires Ok(origin, s) && e.Open?
    ensures Ok(origin, Step(s, e)) && Step(s, e).enrollCalls == s.enrollCalls
  {
    hide Same;
  }

  lemma WriteOk(origin: Identity, s: System, e: Event)
    requires Ok(origin, s) && e.Write?
    ensures Ok(origin, Step(s, e)) && Step(s, e).enrollCalls == s.enrollCalls
  {
    hide Same;
  }

  lemma PublishOk(origin: Identity, s: System, e: Event)
    requires Ok(origin, s) && e.Publish?
    ensures Ok(origin, Step(s, e)) && Step(s, e).enrollCalls == s.enrollCalls
  {
    hide Same;
  }

  lemma CrashOk(origin: Identity, s: System)
    requires Ok(origin, s)
    ensures Ok(origin, Step(s, Crash)) && Step(s, Crash).enrollCalls == s.enrollCalls
  {
    hide Same;
  }

  /** STABILITY. Once the identity file exists, no sequence of starts, renewals,
      rotations, failed saves, crashes and overlapping saves makes the agent enroll
      again, run as another device or under another root, or hold or persist a
      certificate with a key of another issue. */
  lemma {:induction false} Stability(origin: Identity, s: System, es: seq<Event>)
    requires Ok(origin, s)
    ensures var s' := Run(s, es);
            && Ok(origin, s') && s'.enrollCalls == s.enrollCalls
            && !Load(s'.disk).Nothing?
            && (Load(s'.disk).Found? ==> Same(origin, Load(s'.disk).id, s'.pairs))
    decreases |es|
  {
    if es != [] {
      StepOk(origin, s, es[0]);
      Stability(origin, Step(s, es[0]), es[1..]);
    }
  }

  /** A machine on which no agent has run. */
  const BLANK := System(Disk(map[], 0, None, None), None, Idle, Idle, 0, {})

  /** The state after the first successful save. */
  function Saved(origin: Identity, calls: nat): System {
    System(Disk(map[0 := Holds(origin)], 1, None, Some(0)), Some(origin), Idle, Idle, calls, Pair(origin))
  }

  // ---- when can the file be read back? ----

  /** The saves of this step do not overlap. */
  predicate Apart(s: System, e: Event) {
    e.Open? ==> !Saving(Get(s, Other(e.who)))
  }

  predicate ApartRun(s: System, es: seq<Event>)
    decreases |es|
  {
    es == [] || (Apart(s, es[0]) && ApartRun(Step(s, es[0]), es[1..]))
  }

  predicate SaverClean(s: System, v: Saver) {
    && (Saving(v) ==> s.disk.tmp == Some(v.fd) && s.disk.path != Some(v.fd))
    && (v.Opened? ==> v.fd in s.disk.inodes && s.disk.inodes[v.fd] == Empty)
    && (v.Written? ==> v.fd in s.disk.inodes && s.disk.inodes[v.fd] == Holds(v.snap))
  }

  /** The file holds the identity published last, and no open save can reach it. */
  ghost predicate Readable(origin: Identity, s: System) {
    && Ok(origin, s)
    && s.disk.inodes[s.disk.path.value].Holds?
    && s.disk.tmp != s.disk.path
    && (forall i :: i in s.disk.inodes ==> i < s.disk.next)
    && !(Saving(s.uplink) && Saving(s.rotator))
    && SaverClean(s, s.uplink) && SaverClean(s, s.rotator)
  }

  lemma StartReadable(origin: Identity, s: System, e: Event)
    requires Readable(origin, s) && Legal(s, e) && Apart(s, e) && e.Start?
    ensures Readable(origin, Step(s, e))
  {
    StepOk(origin, s, e);
    hide Same, Complete, SaverOk;
  }

  lemma QuietReadable(origin: Identity, s: System, e: Event)
    requires Readable(origin, s) && Legal(s, e) && Apart(s, e) && (e.Renew? || e.Swap? || e.Marshal? || e.Crash?)
    ensures Readable(origin, Step(s, e))
  {
    StepOk(origin, s, e);
    hide Same, Complete, SaverOk;
  }

  lemma OpenReadable(origin: Identity, s: System, e: Event)
    requires Readable(origin, s) && Legal(s, e) && Apart(s, e) && e.Open?
    ensures Readable(origin, Step(s, e))
  {
    StepOk(origin, s, e);
    hide Same, Complete, SaverOk;
  }

  lemma WriteReadable(origin: Identity, s: System, e: Event)
    requires Readable(origin, s) && Legal(s, e) && Apart(s, e) && e.Write?
    ensures Readable(origin, Step(s, e))
  {
    StepOk(origin, s, e);
    hide Same, Complete, SaverOk;
  }

  lemma PublishReadable(origin: Identity, s: System, e: Event)
    requires Readable(origin, s) && Legal(s, e) && Apart(s, e) && e.Publish?
    ensures Readable(origin, Step(s, e))
  {
    StepOk(origin, s, e);
    hide Same, Complete, SaverOk;
  }

  lemma StepReadable(origin: Identity, s: System, e: Event)
    requires Readable(origin, s) && Legal(s, e) && Apart(s, e)
    ensures Readable(origin, Step(s, e))
  {
    hide Readable, Step, Legal, Apart;
    match e
    case Start(_) => StartReadable(origin, s, e);
    case Open(_, _) => OpenReadable(origin, s, e);
    case Write(_, _, _) => WriteReadable(origin, s, e);
    case Publish(_, _) => PublishReadable(origin, s, e);
    case _ => QuietReadable(origin, s, e);
  }

  /** READ BACK. If saves never overlap, the file can be read at every moment of every
      run, crashes included, so that every start reuses the identity. */
  lemma {:induction false} SerialSavesReadable(origin: Identity, s: System, es: seq<Event>)
    requires Readable(origin, s) && LegalRun(s, es) && ApartRun(s, es)
    ensures var s' := Run(s, es);
            Readable(origin, s') && Load(s'.disk).Found? && Same(origin, Load(s'.disk).id, s'.pairs)
    decreases |es|
  {
    if es != [] {
      StepReadable(origin, s, es[0]);
      SerialSavesReadable(origin, Step(s, es[0]), es[1..]);
    }
  }

  lemma SavedReadable(origin: Identity, calls: nat)
    requires Complete(origin)
    ensures Readable(origin, Saved(origin, calls))
  {
  }

  /** Starts on a machine without an identity file, each of which failed to leave one. */
  predicate AllFail(bs: seq<Boot>) {
    forall k :: 0 <= k < |bs| ==> !Ensured(Nothing, bs[k]).out.Enrolled?
  }

  function Starts(bs: seq<Boot>): seq<Event> {
    seq(|bs|, k requires 0 <= k < |bs| => Start(bs[k]))
  }

  lemma {:induction false} FailedStarts(s: System, bs: seq<Boot>)
    requires s == BLANK.(enrollCalls := s.enrollCalls) && AllFail(bs)
    ensures var s' := Run(s, Starts(bs)); s' == BLANK.(enrollCalls := s'.enrollCalls)
    decreases |bs|
  {
    if bs != [] {
      assert Starts(bs)[1..] == Starts(bs[1..]);
      FailedStarts(Step(s, Start(bs[0])), bs[1..]);
    }
  }

  /** ENROLLED ONCE. A blank machine starts any number of times without getting an identity
      saved, and then once with success. That leaves a readable file, and whatever
      happens afterwards there is no further enroll request. */
  lemma EnrolledOnce(bs: seq<Boot>, b: Boot, es: seq<Event>)
    requires AllFail(bs) && Ensured(Nothing, b).out.Enrolled?
    ensures var origin := Ensured(Nothing, b).out.id;
            var s := Run(BLANK, Starts(bs) + [Start(b)]);
            && Readable(origin, s) && s.live == Some(origin)
            && Run(s, es).enrollCalls == s.enrollCalls
  {
    var origin := Ensured(Nothing, b).out.id;
    FailedStarts(BLANK, bs);
    RunSplit(BLANK, Starts(bs), [Start(b)]);
    RunOne(Run(BLANK, Starts(bs)), Start(b));
    var s := Run(BLANK, Starts(bs) + [Start(b)]);
    assert s == Saved(origin, s.enrollCalls);
    SavedReadable(origin, s.enrollCalls);
    Stability(origin, s, es);
  }

  /** One goroutine's save, from the snapshot to the rename, with nothing going wrong. */
  function WholeSave(w: Who): seq<Event> {
    [Marshal(w), Open(w, true), Write(w, true, true), Publish(w, true)]
  }

  /** A SAVE ARRIVES. Whatever was renewed or swapped in before it, a save that nothing
      disturbs leaves the file holding the live identity. */
  lemma SaveArrives(origin: Identity, s: System, w: Who)
    requires Readable(origin, s) && s.live.Some? && Get(s, w).Wanting? && !Saving(Get(s, Other(w)))
    ensures LegalRun(s, WholeSave(w))
    ensures Load(Run(s, WholeSave(w)).disk) == Found(s.live.value)
  {
    hide Run, LegalRun;
    var es := WholeSave(w);
    assert es == es[..1] + es[1..] && es[..1] == [Marshal(w)];
    assert es[1..] == [Open(w, true), Write(w, true, true), Publish(w, true)];
    RunOne(s, Marshal(w));
    RunThree(Step(s, Marshal(w)), Open(w, true), Write(w, true, true), Publish(w, true));
    RunSplit(s, es[..1], es[1..]);
    LegalSplit(s, es[..1], es[1..]);
  }

  /** A RENEWED TOKEN ARRIVES, and so does a rotated leaf: the next save has it. */
  lemma ChangeArrives(origin: Identity, s: System, tok: string, cert: string, key: string)
    requires Readable(origin, s) && s.live.Some? && s.uplink.Idle? && s.rotator.Idle?
    ensures tok != "" && tok != s.live.value.jwt ==>
              Load(Run(s, [Renew(tok)] + WholeSave(Uplink)).disk) == Found(s.live.value.(jwt := tok))
    ensures s.live.value.tls.Some? ==>
              Load(Run(s, [Swap(cert, key)] + WholeSave(Rotator)).disk)
              == Found(s.live.value.(tls := Some(Tls(cert, key, s.live.value.tls.value.root))))
  {
    hide Run, LegalRun, Readable;
    if tok != "" && tok != s.live.value.jwt {
      QuietReadable(origin, s, Renew(tok));
      RunOne(s, Renew(tok));
      RunSplit(s, [Renew(tok)], WholeSave(Uplink));
      SaveArrives(origin, Step(s, Renew(tok)), Uplink);
    }
    if s.live.value.tls.Some? {
      QuietReadable(origin, s, Swap(cert, key));
      RunOne(s, Swap(cert, key));
      RunSplit(s, [Swap(cert, key)], WholeSave(Rotator));
      SaveArrives(origin, Step(s, Swap(cert, key)), Rotator);
    }
  }

  /** Is there a change that calls for a save by `w`? */
  predicate Asks(s: System, e: Event, w: Who) {
    && s.live.Some?
    && match e
       case Renew(tok) => w.Uplink? && tok != "" && tok != s.live.value.jwt
       case Swap(_, _) => w.Rotator? && s.live.value.tls.Some?
       case _ => false
  }

  function Asked(s: System, es: seq<Event>, w: Who): nat
    decreases |es|
  {
    if es == [] then 0 else (if Asks(s, es[0], w) then 1 else 0) + Asked(Step(s, es[0]), es[1..], w)
  }

  /** How often `w` tried to open the temporary file. */
  function Tried(s: System, es: seq<Event>, w: Who): nat
    decreases |es|
  {
    if es == [] then 0
    else
      (if es[0] in {Open(w, true), Open(w, false)} && Get(s, w).Marshalled? then 1 else 0)
      + Tried(Step(s, es[0]), es[1..], w)
  }

  function Owed(v: Saver): nat {
    if v.Wanting? || v.Marshalled? then 1 else 0
  }

  /** ONE TRY FOR A CHANGE. A save that fails, at whatever point, is not tried again: over every
      run a goroutine opens the file no more often than it was asked to save. */
  lemma {:induction false} OneTry(s: System, es: seq<Event>, w: Who)
    ensures Tried(s, es, w) + Owed(Get(Run(s, es), w)) <= Asked(s, es, w) + Owed(Get(s, w))
    decreases |es|
  {
    if es != [] {
      hide Started;
      OneTry(Step(s, es[0]), es[1..], w);
    }
  }

  lemma {:induction false} Dead(s: System, es: seq<Event>)
    requires s.live.None? && s.uplink.Idle? && s.rotator.Idle? && forall k :: 0 <= k < |es| ==> !es[k].Start?
    ensures Run(s, es) == s
    decreases |es|
  {
    if es != [] {
      assert Step(s, es[0]) == s;
      Dead(s, es[1..]);
    }
  }

  /** A CRASH ENDS EVERY SAVE. Until the next start nothing touches the files. */
  lemma CrashStops(s: System, es: seq<Event>)
    requires forall k :: 0 <= k < |es| ==> !es[k].Start?
    ensures Run(Step(s, Crash), es) == Step(s, Crash) && Step(s, Crash).disk == s.disk
  {
    Dead(Step(s, Crash), es);
  }

  predicate NoOpens(es: seq<Event>) {
    forall k :: 0 <= k < |es| ==> !es[k].Open?
  }

  lemma {:induction false} NoOpensApart(s: System, es: seq<Event>)
    requires NoOpens(es)
    ensures ApartRun(s, es)
    decreases |es|
  {
    if es != [] {
      NoOpensApart(Step(s, es[0]), es[1..]);
    }
  }

  /** What may happen after both saves have had the file open. */
  function Aftermath(w: Who, other: Saver): seq<Event> {
    if other.Written? then [Publish(Other(w), true)]
    else [Write(Other(w), true, true), Publish(Other(w), true)]
  }

  lemma OverlapDangerous(origin: Identity, s: System, w: Who)
    requires Readable(origin, s) && Get(s, w).Marshalled? && Saving(Get(s, Other(w)))
    ensures var s1, es := Step(s, Open(w, true)), Aftermath(w, Get(s, Other(w))) + [Write(w, false, false)];
            NoOpens(es) && LegalRun(s1, es) && Load(Run(s1, es).disk).Unreadable?
  {
    var s1, first, last := Step(s, Open(w, true)), Aftermath(w, Get(s, Other(w))), Write(w, false, false);
    RunSplit(s1, first, [last]);
    RunShort(s1, first);
    RunOne(Run(s1, first), last);
    LegalSplit(s1, first, [last]);
  }

  lemma RunOne(s: System, e: Event)
    ensures Run(s, [e]) == Step(s, e) && (LegalRun(s, [e]) <==> Legal(s, e))
  {
    assert [e][1..] == [];
  }

  lemma RunShort(s: System, es: seq<Event>)
    requires 1 <= |es| <= 2 && (forall k :: 0 <= k < |es| ==> es[k].Publish? || (es[k].Write? && es[k].intact))
    ensures Run(s, es) == if |es| == 1 then Step(s, es[0]) else Step(Step(s, es[0]), es[1])
    ensures LegalRun(s, es)
  {
    if |es| == 2 {
      assert es[1..] == [es[1]];
      RunOne(Step(s, es[0]), es[1]);
    } else {
      assert es[1..] == [];
    }
  }

  /** OVERLAP, EXACTLY. Opening the temporary file for a save can lead, without any
      further opening, to a file that cannot be read if and only if the other
      goroutine's save was under way. */
  lemma OverlapExactly(origin: Identity, s: System, w: Who)
    requires Readable(origin, s) && Get(s, w).Marshalled?
    ensures (exists es :: NoOpens(es) && LegalRun(Step(s, Open(w, true)), es)
                          && Load(Run(Step(s, Open(w, true)), es).disk).Unreadable?)
            <==> Saving(Get(s, Other(w)))
  {
    var s1 := Step(s, Open(w, true));
    if Saving(Get(s, Other(w))) {
      OverlapDangerous(origin, s, w);
    } else {
      StepReadable(origin, s, Open(w, true));
      forall es | NoOpens(es) && LegalRun(s1, es)
        ensures !Load(Run(s1, es).disk).Unreadable?
      {
        NoOpensApart(s1, es);
        SerialSavesReadable(origin, s1, es);
      }
    }
  }

  function Overlap(tok: string, cert: string, key: string): seq<Event> {
    [Renew(tok), Swap(cert, key), Marshal(Uplink), Marshal(Rotator), Open(Uplink, true), Open(Rotator, true),
     Write(Uplink, true, true), Publish(Uplink, true), Write(Rotator, true, false)]
  }

  lemma {:induction false} RunSplit(s: System, a: seq<Event>, b: seq<Event>)
    ensures Run(s, a + b) == Run(Run(s, a), b)
    decreases |a|
  {
    if a == [] {
      assert a + b == b;
    } else {
      assert (a + b)[1..] == a[1..] + b;
      RunSplit(Step(s, a[0]), a[1..], b);
    }
  }

  lemma {:induction false} LegalSplit(s: System, a: seq<Event>, b: seq<Event>)
    requires LegalRun(s, a) && LegalRun(Run(s, a), b)
    ensures LegalRun(s, a + b)
    decreases |a|
  {
    if a == [] {
      assert a + b == b;
    } else {
      assert (a + b)[0] == a[0] && (a + b)[1..] == a[1..] + b;
      LegalSplit(Step(s, a[0]), a[1..], b);
    }
  }

  lemma RunThree(s: System, a: Event, b: Event, c: Event)
    ensures Run(s, [a, b, c]) == Step(Step(Step(s, a), b), c)
    ensures Legal(s, a) && Legal(Step(s, a), b) && Legal(Step(Step(s, a), b), c) ==> LegalRun(s, [a, b, c])
  {
    var s1 := Step(s, a);
    var s2 := Step(s1, b);
    assert [a, b, c][1..] == [b, c] && [b, c][1..] == [c] && [c][1..] == [];
    assert Run(s2, [c]) == Step(s2, c);
    assert Run(s1, [b, c]) == Run(s2, [c]);
    assert LegalRun(s2, [c]) <==> Legal(s2, c);
    assert LegalRun(s1, [b, c]) <==> Legal(s1, b) && LegalRun(s2, [c]);
  }

  /** Both goroutines have the same temporary file open. */
  lemma BothOpen(origin: Identity, tok: string, cert: string, key: string) returns (s: System)
    requires Complete(origin) && origin.tls.Some? && tok != "" && tok != origin.jwt
    ensures s == Run(Saved(origin, 1), Overlap(tok, cert, key)[..6])
    ensures LegalRun(Saved(origin, 1), Overlap(tok, cert, key)[..6])
    ensures s.uplink.Opened? && s.rotator.Opened? && s.uplink.fd == s.rotator.fd
    ensures s.disk.tmp == Some(s.uplink.fd) && s.uplink.fd in s.disk.inodes
  {
    hide Started, Run, LegalRun;
    var s0, a, b := Saved(origin, 1), Overlap(tok, cert, key)[..3], Overlap(tok, cert, key)[3..6];
    assert a == [Renew(tok), Swap(cert, key), Marshal(Uplink)];
    assert b == [Marshal(Rotator), Open(Uplink, true), Open(Rotator, true)];
    assert a + b == Overlap(tok, cert, key)[..6];
    RunThree(s0, Renew(tok), Swap(cert, key), Marshal(Uplink));
    RunThree(Run(s0, a), Marshal(Rotator), Open(Uplink, true), Open(Rotator, true));
    RunSplit(s0, a, b);
    LegalSplit(s0, a, b);
    s := Run(s0, a + b);
  }

  /** A loss: a renewal and a rotation whose saves overlap can leave the file
      unreadable, and from then on no start gets anywhere. */
  lemma OverlapUnreadable(origin: Identity, tok: string, cert: string, key: string, b: Boot)
    requires Complete(origin) && origin.tls.Some? && tok != "" && tok != origin.jwt
    ensures LegalRun(Saved(origin, 1), Overlap(tok, cert, key))
    ensures var s := Run(Saved(origin, 1), Overlap(tok, cert, key));
            && Load(s.disk).Unreadable?
            && Run(s, [Crash, Start(b), Start(b)]).live.None?
  {
    hide Run, LegalRun;
    var es, s0 := Overlap(tok, cert, key), Saved(origin, 1);
    var s1 := BothOpen(origin, tok, cert, key);
    assert es[6..] == [Write(Uplink, true, true), Publish(Uplink, true), Write(Rotator, true, false)];
    assert es == es[..6] + es[6..];
    RunThree(s1, Write(Uplink, true, true), Publish(Uplink, true), Write(Rotator, true, false));
    RunSplit(s0, es[..6], es[6..]);
    LegalSplit(s0, es[..6], es[6..]);
    RunThree(Run(s0, es), Crash, Start(b), Start(b));
  }
}
