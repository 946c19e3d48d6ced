/** Mounting a workspace and tearing the mount down again. Every call into the catalog, the kernel,
    the VFS and the session is an entry of `World`, so a method here covers every combination of
    outcomes. What a run does to the writer lease is recorded in a trace of events. */
module PackedMount {
  import opened Common

  datatype Failure =
    | PreflightFailed | AcquireFailed | WorkspaceLoadFailed | BucketRejected
    | BindingFailed | MountUnsupported | ClientFailed | AttachFailed | MountAuthorityMissing
    | InitializeFailed | WritebackRootFailed | IdentityFailed | VfsFailed | PrepareFailed
    | MountFailed | CaptureFailed | SignalFailed | UnmountFailed | CutoffFailed | SessionFailed
    | StillMounted | RenewalFailed | NoTerminalWitness | QuiesceFailed | RuntimeShutdownFailed
    | SessionShutdownFailed | ProofFailed | ShutdownAuthorityMissing | DrainNotReached
    | LeaseNotReleased | ReleaseFailed | BackendShutdownFailed

  /** The result of a fallible call without a value of interest. */
  datatype Reply = Fine | Fails(failure: Failure)

  function OrElse(a: Reply, b: Reply): Reply {
    if a.Fails? then a else b
  }

  /** The order of the calls of a run by the failures they report, when one can end the run. The
      four failures of serving are in the order in which the code looks at them. */
  function Order(f: Failure): nat {
    match f
    case PreflightFailed => 0
    case AcquireFailed => 1
    case WorkspaceLoadFailed => 2
    case BucketRejected => 3
    case BindingFailed => 4
    case MountUnsupported => 5
    case ClientFailed => 6
    case AttachFailed => 7
    case MountAuthorityMissing => 8
    case InitializeFailed => 9
    case WritebackRootFailed => 10
    case IdentityFailed => 11
    case VfsFailed => 12
    case PrepareFailed => 13
    case MountFailed => 14
    case CaptureFailed => 15
    case SignalFailed => 16
    case UnmountFailed => 17
    case SessionFailed => 18
    case CutoffFailed => 19
    case NoTerminalWitness => 20
    case QuiesceFailed => 21
    case ProofFailed => 22
    case ReleaseFailed => 23
    case BackendShutdownFailed => 24
    case _ => 25
  }

  /** Linear tokens: each names the object it was obtained from. */
  datatype Reference = Reference(mount: nat)
  datatype Drain = Drain(vfs: nat)
  datatype Cutoff = Cutoff(kernelMount: nat)
  datatype Proof = Proof(reference: Reference, drain: Drain, cutoff: Cutoff)

  /** What the surroundings answer; `true` means the call succeeds. */
  datatype World = World(
    preflight: bool, acquire: bool, loadWorkspace: bool, bucketAccepted: bool,
    operatorManaged: bool, backendShutdown: bool,
    loadBinding: bool, bound: bool, supportsPacked: bool, client: bool, attach: bool,
    packed: bool, reference: Option<Reference>,
    initialize: bool, writebackRoot: bool, writebackIdentity: bool,
    vfs: bool, vfsId: nat, prepare: bool, mount: bool, capture: bool, kernelMount: nat,
    signalFirst: bool, signal: bool, unmount: bool, sessionEnd: bool, workerJoin: bool,
    closeRenewals: bool, quiesce: bool, runtimeShutdown: bool, sessionShutdown: bool,
    proof: bool, release: bool)

  /** Whether the call that reports `f` succeeds, or is not one that this run makes. */
  predicate Succeeds(w: World, f: Failure) {
    match f
    case PreflightFailed => w.preflight
    case AcquireFailed => w.acquire
    case WorkspaceLoadFailed => w.loadWorkspace
    case BucketRejected => w.bucketAccepted
    case BindingFailed => w.loadBinding
    case MountUnsupported => w.bound ==> w.supportsPacked
    case ClientFailed => w.bound ==> w.client
    case AttachFailed => w.bound ==> w.attach
    case MountAuthorityMissing => w.packed ==> w.reference.Some?
    case InitializeFailed => w.initialize
    case WritebackRootFailed => w.writebackRoot
    case IdentityFailed => w.writebackIdentity
    case VfsFailed => w.vfs
    case PrepareFailed => w.packed ==> w.prepare
    case MountFailed => w.mount
    case CaptureFailed => w.packed ==> w.capture
    case SignalFailed => w.signalFirst ==> w.signal
    case UnmountFailed => w.signalFirst ==> w.unmount
    case SessionFailed => !w.signalFirst ==> w.sessionEnd
    case CutoffFailed => w.packed ==> w.workerJoin
    case NoTerminalWitness => w.closeRenewals
    case QuiesceFailed => w.packed ==> w.quiesce
    case ProofFailed => w.packed ==> w.proof
    case ReleaseFailed => w.release
    case BackendShutdownFailed => w.backendShutdown
    case _ => true
  }

  /** The answer of the mount block up to the point of mounting. */
  function PrepareReply(w: World): Reply {
    if !w.loadBinding then Fails(BindingFailed)
    else if w.bound && !w.supportsPacked then Fails(MountUnsupported)
    else if w.bound && !w.client then Fails(ClientFailed)
    else if w.bound && !w.attach then Fails(AttachFailed)
    else if w.packed && w.reference.None? then Fails(MountAuthorityMissing)
    else if !w.initialize then Fails(InitializeFailed)
    else if !w.writebackRoot then Fails(WritebackRootFailed)
    else if !w.writebackIdentity then Fails(IdentityFailed)
    else if !w.vfs then Fails(VfsFailed)
    else if w.packed && !w.prepare then Fails(PrepareFailed)
    else Fine
  }

  /** The answer of mounting and serving. */
  function ServeReply(w: World): Reply {
    if !w.mount then Fails(MountFailed)
    else if w.packed && !w.capture then Fails(CaptureFailed)
    else if w.signalFirst && !w.signal then Fails(SignalFailed)
    else if w.signalFirst && !w.unmount then Fails(UnmountFailed)
    else if !w.signalFirst && !w.sessionEnd then Fails(SessionFailed)
    else if w.packed && !w.workerJoin then Fails(CutoffFailed)
    else Fine
  }

  function BlockReply(w: World): Reply {
    OrElse(PrepareReply(w), ServeReply(w))
  }

  /** The answer of acquiring the workspace, and that of everything after the mount block. */
  function OpenReply(w: World): Reply {
    if !w.preflight then Fails(PreflightFailed)
    else if !w.acquire then Fails(AcquireFailed)
    else if !w.loadWorkspace then Fails(WorkspaceLoadFailed)
    else if !w.bucketAccepted then Fails(BucketRejected)
    else Fine
  }

  function CloseReply(w: World): Reply {
    if !w.closeRenewals then Fails(NoTerminalWitness)
    else if w.packed && !w.quiesce then Fails(QuiesceFailed)
    else if w.packed && !w.proof then Fails(ProofFailed)
    else if !w.release then Fails(ReleaseFailed)
    else Fine
  }

  function RunReply(w: World): Reply {
    OrElse(OrElse(OpenReply(w), BlockReply(w)), CloseReply(w))
  }

  /** The reply `r` is a failure of one of the calls `from` up to `to`, if it is one. */
  predicate Within(w: World, from: nat, to: nat, r: Reply) {
    r.Fails? ==> from <= Order(r.failure) < to && !Succeeds(w, r.failure)
  }

  /** The call of `f` did not fail before the one that `r` reports, and no other call has its place. */
  predicate NotEarlier(w: World, r: Reply, f: Failure) {
    r.Fine? || (f != r.failure && Order(f) <= Order(r.failure)) ==> Succeeds(w, f)
  }

  lemma {:induction false} OpenFails(w: World)
    ensures Within(w, 0, 4, OpenReply(w))
  {
  }

  lemma {:induction false} OpenFailsFirst(w: World, f: Failure)
    requires 0 <= Order(f) < 4
    ensures NotEarlier(w, OpenReply(w), f)
  {
  }

  lemma {:induction false} PrepareFails(w: World)
    ensures Within(w, 4, 14, PrepareReply(w))
  {
  }

  lemma {:induction false} PrepareFailsFirst(w: World, f: Failure)
    requires 4 <= Order(f) < 14
    ensures NotEarlier(w, PrepareReply(w), f)
  {
  }

  lemma {:induction false} ServeFails(w: World)
    ensures Within(w, 14, 20, ServeReply(w))
  {
  }

  lemma {:induction false} ServeFailsFirst(w: World, f: Failure)
    requires 14 <= Order(f) < 20
    ensures NotEarlier(w, ServeReply(w), f)
  {
  }

  lemma {:induction false} CloseFails(w: World)
    ensures Within(w, 20, 24, CloseReply(w))
  {
  }

  lemma {:induction false} CloseFailsFirst(w: World, f: Failure)
    requires 20 <= Order(f) < 24
    ensures NotEarlier(w, CloseReply(w), f)
  {
  }

  /** The first failing stretch decides. */
  lemma {:induction false} JoinReplies(w: World, open: Reply, prepare: Reply, serve: Reply, close: Reply, f: Failure)
    requires Within(w, 0, 4, open) && Within(w, 4, 14, prepare) && Within(w, 14, 20, serve) && Within(w, 20, 24, close)
    requires NotEarlier(w, if Order(f) < 4 then open else if Order(f) < 14 then prepare
                           else if Order(f) < 20 then serve else close, f)
    ensures var r := OrElse(OrElse(open, OrElse(prepare, serve)), close);
            Within(w, 0, 24, r) && NotEarlier(w, r, f)
  {
  }

  /** A run answers with the failure of the first of its calls that failed, and with success when
      none did: the reported call failed and no call before it did. */
  lemma {:induction false} FirstFailureIsReported(w: World, f: Failure)
    requires Order(f) < Order(BackendShutdownFailed)
    ensures Within(w, 0, Order(BackendShutdownFailed), RunReply(w))
    ensures NotEarlier(w, RunReply(w), f)
  {
    var open, prepare, serve, close := OpenReply(w), PrepareReply(w), ServeReply(w), CloseReply(w);
    OpenFails(w);
    PrepareFails(w);
    ServeFails(w);
    CloseFails(w);
    if Order(f) < 4 {
      OpenFailsFirst(w, f);
    } else if Order(f) < 14 {
      PrepareFailsFirst(w, f);
    } else if Order(f) < 20 {
      ServeFailsFirst(w, f);
    } else {
      CloseFailsFirst(w, f);
    }
    JoinReplies(w, open, prepare, serve, close, f);
  }

  /** A run succeeds exactly when every call it makes does. */
  lemma {:induction false} RunSucceeds(w: World)
    ensures RunReply(w).Fine? <==>
            && w.preflight && w.acquire && w.loadWorkspace && w.bucketAccepted && w.loadBinding
            && (w.bound ==> w.supportsPacked && w.client && w.attach)
            && w.initialize && w.writebackRoot && w.writebackIdentity && w.vfs && w.mount
            && (w.packed ==> w.reference.Some? && w.prepare && w.capture && w.workerJoin && w.quiesce && w.proof)
            && (if w.signalFirst then w.signal && w.unmount else w.sessionEnd)
            && w.closeRenewals && w.release
  {
    assert BlockReply(w).Fine? <==> PrepareReply(w).Fine? && ServeReply(w).Fine?;
  }

  datatype Event =
    | Acquired | Dropped | GcStarted | GcStopped
    | AttachmentMarked | WorkersJoined | CutoffVerified(cutoff: Cutoff)
    | RenewalsClosed | Drained(drain: Drain) | RuntimeShutDown
    | ProofBuilt(proof: Proof)
    | ReleasedPlainly | ReleasedClean(proof: Proof) | Retained
    | BackendShutDown

  datatype Trace = Nothing | Then(earlier: Trace, event: Event)

  // ---------------------------------------------------------------- the lease protocol

  datatype Lease = Free | Held | GivenBack | Kept | Abandoned

  /** What a trace has established so far. */
  datatype Standing = Standing(
    lease: Lease, gc: bool, attempted: bool, joined: bool, cutoff: Option<Cutoff>,
    closed: bool, drain: Option<Drain>, runtimeDown: bool, proof: Option<Proof>, backendUp: bool)

  const Outset := Standing(Free, false, false, false, None, false, None, false, None, true)

  /** The protocol: which events are allowed in which standing. A plain release is only for a lease
      whose packed mount was never attempted, and a clean release needs the proof that was built
      from the drain and the cutoff obtained before. */
  predicate Allows(s: Standing, e: Event) {
    match e
    case Acquired => s.lease.Free?
    case Dropped => s.lease.Held? && !s.gc && !s.attempted
    case GcStarted => s.lease.Held? && !s.gc
    case GcStopped => s.gc
    case AttachmentMarked => s.lease.Held? && !s.attempted && !s.closed
    case WorkersJoined => s.lease.Held?
    case CutoffVerified(_) => s.lease.Held? && s.attempted && s.joined
    case RenewalsClosed => s.lease.Held? && !s.gc && (s.attempted ==> s.cutoff.Some?)
    case Drained(_) => s.lease.Held? && s.closed
    case RuntimeShutDown => s.lease.Held? && s.closed && !s.attempted
    case ProofBuilt(p) => s.lease.Held? && s.drain == Some(p.drain) && s.cutoff == Some(p.cutoff)
    case ReleasedPlainly => s.lease.Held? && s.closed && !s.attempted && !s.gc
    case ReleasedClean(p) => s.lease.Held? && s.proof == Some(p) && !s.gc
    case Retained => s.lease.Held? && !s.gc
    case BackendShutDown => s.backendUp && !s.lease.Held? && !s.lease.Kept?
  }

  function Follow(s: Standing, e: Event): Standing {
    match e
    case Acquired => s.(lease := Held)
    case Dropped => s.(lease := Abandoned)
    case GcStarted => s.(gc := true)
    case GcStopped => s.(gc := false)
    case AttachmentMarked => s.(attempted := true)
    case WorkersJoined => s.(joined := true)
    case CutoffVerified(c) => s.(cutoff := Some(c))
    case RenewalsClosed => s.(closed := true)
    case Drained(d) => s.(drain := Some(d))
    case RuntimeShutDown => s.(runtimeDown := true)
    case ProofBuilt(p) => s.(proof := Some(p))
    case ReleasedPlainly => s.(lease := GivenBack)
    case ReleasedClean(_) => s.(lease := GivenBack)
    case Retained => s.(lease := Kept)
    case BackendShutDown => s.(backendUp := false)
  }

  function After(t: Trace): Standing {
    if t.Nothing? then Outset else Follow(After(t.earlier), t.event)
  }

  predicate Legal(t: Trace) {
    t.Then? ==> Legal(t.earlier) && Allows(After(t.earlier), t.event)
  }

  /** Appends an event the protocol allows. */
  function Log(t: Trace, e: Event): (t': Trace)
    requires Legal(t) && Allows(After(t), e)
    ensures Legal(t') && After(t') == Follow(After(t), e) && t'.Then? && t'.event == e
  {
    Then(t, e)
  }

  // ---------------------------------------------------------------- mount block and teardown

  /** The variables the mount block leaves to the teardown. */
  datatype Mounted = Mounted(
    packedMetadata: bool, packedVfs: Option<nat>, attempted: bool, cutoffVerified: bool,
    kernelCutoff: Option<Cutoff>, cleanReference: Option<Reference>)

  /** What teardown may rely on once the mount block has ended, however it ended. */
  predicate BlockEnded(w: World, m: Mounted, result: Reply, s: Standing) {
    && s.lease.Held? && !s.closed && s.drain.None? && s.proof.None? && !s.runtimeDown && s.backendUp
    && s.attempted == m.attempted
    && s.cutoff == m.kernelCutoff && m.cutoffVerified == m.kernelCutoff.Some?
    && (m.cutoffVerified ==> m.attempted)
    && (m.attempted ==> m.packedMetadata && m.packedVfs.Some? && m.cleanReference.Some?)
    && (m.packedVfs.Some? || m.cleanReference.Some? ==> m.packedMetadata)
    && (m.attempted && result.Fine? ==> m.cutoffVerified)
    && (m.cleanReference.Some? ==> m.cleanReference == w.reference)
    && (m.packedVfs.Some? ==> m.packedVfs == Some(w.vfsId))
    && (m.kernelCutoff.Some? ==> m.kernelCutoff == Some(Cutoff(w.kernelMount)))
  }

  /** How far the mount block gets. */
  predicate HasMetadata(w: World) {
    w.packed && w.loadBinding && (w.bound ==> w.supportsPacked && w.client && w.attach)
  }

  predicate HasVfs(w: World) {
    && HasMetadata(w) && w.reference.Some?
    && w.initialize && w.writebackRoot && w.writebackIdentity && w.vfs
  }

  predicate Attempts(w: World) {
    HasVfs(w) && w.prepare
  }

  predicate CutsOff(w: World) {
    Attempts(w) && w.mount && w.capture && (if w.signalFirst then w.unmount else w.sessionEnd) && w.workerJoin
  }

  /** The mount block ends somewhere; the run keeps the lease with its runtime exactly when the
      kernel cutoff of an attempted mount or a later cleanup step is missing. */
  predicate Retains(w: World) {
    || (Attempts(w) && !CutsOff(w))
    || !w.closeRenewals
    || (HasVfs(w) && !w.quiesce)
    || (HasMetadata(w) && !(if Attempts(w) then w.proof else w.runtimeShutdown))
  }

  /** The part of the block that builds the layers, up to the point of mounting. */
  method PrepareMount(w: World, before: Trace) returns (result: Reply, m: Mounted, t: Trace)
    requires Legal(before)
    requires After(before) == Outset.(lease := Held, gc := !w.operatorManaged)
    ensures Legal(t) && After(t) == After(before).(attempted := Attempts(w))
    ensures m == Mounted(HasMetadata(w), if HasVfs(w) then Some(w.vfsId) else None, Attempts(w), false, None,
                         if HasMetadata(w) then w.reference else None)
    ensures result == PrepareReply(w)
  {
    t := before;
    m := Mounted(false, None, false, false, None, None);
    if !w.loadBinding { return Fails(BindingFailed), m, t; }
    if w.bound {
      if !w.supportsPacked { return Fails(MountUnsupported), m, t; }
      if !w.client { return Fails(ClientFailed), m, t; }
      if !w.attach { return Fails(AttachFailed), m, t; }
    }
    if w.packed {
      m := m.(packedMetadata := true, cleanReference := w.reference);
      if m.cleanReference.None? { return Fails(MountAuthorityMissing), m, t; }
    }
    if !w.initialize { return Fails(InitializeFailed), m, t; }
    if !w.writebackRoot { return Fails(WritebackRootFailed), m, t; }
    if !w.writebackIdentity { return Fails(IdentityFailed), m, t; }
    if !w.vfs { return Fails(VfsFailed), m, t; }
    if w.packed {
      m := m.(packedVfs := Some(w.vfsId));
      if !w.prepare { return Fails(PrepareFailed), m, t; }
    }
    m := m.(attempted := w.packed);
    if w.packed { t := Log(t, AttachmentMarked); }
    result := Fine;
  }

  /** Mounts, serves until a signal or the end of the FUSE session, and establishes the cutoff. */
  method Serve(w: World, prepared: Mounted, before: Trace) returns (result: Reply, m: Mounted, t: Trace)
    requires Legal(before) && After(before).lease.Held? && After(before).attempted == w.packed
    requires prepared.attempted == w.packed && !prepared.cutoffVerified && prepared.kernelCutoff.None?
    requires After(before).cutoff.None?
    ensures Legal(t)
    ensures var cut := w.packed && w.mount && w.capture
                       && (if w.signalFirst then w.unmount else w.sessionEnd) && w.workerJoin;
            var cutoff := if cut then Some(Cutoff(w.kernelMount)) else None;
            && m == prepared.(cutoffVerified := cut, kernelCutoff := cutoff)
            && After(t) == After(before).(joined := After(t).joined, cutoff := cutoff)
            && (w.packed && result.Fine? ==> cut)
    ensures result == ServeReply(w)
  {
    m, t := prepared, before;
    if !w.mount { return Fails(MountFailed), m, t; }
    var identity: Option<nat> := None;
    if w.packed {
      if !w.capture { return Fails(CaptureFailed), m, t; }
      identity := Some(w.kernelMount);
    }
    if w.signalFirst {
      var cutoffResult: Option<bool> := Some(false);   // None stands for a failed worker join
      if w.unmount {
        t := Log(t, WorkersJoined);
        if identity.Some? {
          if w.workerJoin {
            m := m.(kernelCutoff := Some(Cutoff(identity.value)));
            t := Log(t, CutoffVerified(Cutoff(identity.value)));
            cutoffResult := Some(true);
          } else {
            cutoffResult := None;
          }
        } else {
          cutoffResult := Some(!w.packed);
        }
      }
      m := m.(cutoffVerified := w.packed && cutoffResult == Some(true));
      if !w.signal { return Fails(SignalFailed), m, t; }
      if !w.unmount { return Fails(UnmountFailed), m, t; }
      if cutoffResult.None? { return Fails(CutoffFailed), m, t; }
    } else {
      if !w.sessionEnd { return Fails(SessionFailed), m, t; }
      t := Log(t, WorkersJoined);
      if identity.Some? {
        if !w.workerJoin { return Fails(CutoffFailed), m, t; }
        m := m.(kernelCutoff := Some(Cutoff(identity.value)), cutoffVerified := true);
        t := Log(t, CutoffVerified(Cutoff(identity.value)));
      }
    }
    result := Fine;
  }

  method MountBlock(w: World, before: Trace) returns (result: Reply, m: Mounted, t: Trace)
    requires Legal(before)
    requires After(before) == Outset.(lease := Held, gc := !w.operatorManaged)
    ensures Legal(t) && BlockEnded(w, m, result, After(t)) && After(t).gc == !w.operatorManaged
    ensures m.packedMetadata == HasMetadata(w) && m.packedVfs.Some? == HasVfs(w)
    ensures m.attempted == Attempts(w) && m.cutoffVerified == CutsOff(w)
    ensures result == BlockReply(w)
  {
    result, m, t := PrepareMount(w, before);
    if result.Fine? {
      result, m, t := Serve(w, m, t);
    }
  }

  datatype Outcome =
    | Finished
    | Stopped(primary: Failure)
    | RetainedWith(primary: Failure, session: bool, metadata: bool, vfs: Option<nat>)

  /** The reply to the caller, which keeps only the failure. */
  function Verdict(o: Outcome): Reply {
    if o.Finished? then Fine else Fails(o.primary)
  }

  /** The two arms of metadata shutdown that the code keeps for safety. */
  datatype Arm = NoArm | AuthorityMissingArm | PlainSessionArm | StillMountedArm

  /** Whether the packed drain, the metadata shutdown and the release are all reached and succeed. */
  predicate TeardownSucceeds(w: World, m: Mounted) {
    && w.closeRenewals
    && (m.packedVfs.Some? ==> w.quiesce)
    && (m.packedMetadata ==> if m.attempted then w.proof else w.runtimeShutdown)
  }

  /** The error a retained run reports. A failed renewal shutdown is always reported as the missing
      terminal witness, never by its own error. */
  function FirstFailure(w: World, m: Mounted, mountResult: Reply): Failure {
    if mountResult.Fails? then mountResult.failure
    else if !w.closeRenewals then NoTerminalWitness
    else if m.packedVfs.Some? && !w.quiesce then QuiesceFailed
    else if m.attempted then ProofFailed else RuntimeShutdownFailed
  }

  /** Closes renewal admission, and only then takes the VFS drain fence. */
  method CloseAndDrain(w: World, m: Mounted, before: Trace)
    returns (renewals: Reply, drainResult: Reply, drain: Option<Drain>, t: Trace)
    requires Legal(before) && After(before).lease.Held? && !After(before).gc
    requires m.attempted ==> After(before).cutoff.Some?
    requires After(before).attempted == m.attempted && After(before).drain.None?
    ensures Legal(t)
    ensures After(t) == After(before).(closed := After(before).closed || w.closeRenewals, drain := drain)
    ensures renewals == if w.closeRenewals then Fine else Fails(RenewalFailed)
    ensures drainResult == if !w.closeRenewals then Fails(NoTerminalWitness)
                           else if m.packedVfs.Some? && !w.quiesce then Fails(QuiesceFailed) else Fine
    ensures drain == if drainResult.Fine? && m.packedVfs.Some? then Some(Drain(m.packedVfs.value)) else None
  {
    t, drainResult, drain := before, Fine, None;
    renewals := if w.closeRenewals then Fine else Fails(RenewalFailed);
    if renewals.Fine? {
      t := Log(t, RenewalsClosed);
      if m.packedVfs.Some? {
        if w.quiesce {
          drain := Some(Drain(m.packedVfs.value));
          t := Log(t, Drained(drain.value));
        } else {
          drainResult := Fails(QuiesceFailed);
        }
      }
    } else {
      drainResult := Fails(NoTerminalWitness);
    }
  }

  /** Ends the packed metadata runtime: by a verified clean shutdown when the mount was attempted,
      by a plain runtime shutdown when it was not. */
  method ShutMetadata(w: World, m: Mounted, drain: Option<Drain>, before: Trace)
    returns (result: Reply, proof: Option<Proof>, t: Trace, arm: Arm)
    requires Legal(before) && After(before).lease.Held? && After(before).closed
    requires After(before).attempted == m.attempted && After(before).drain == drain
    requires After(before).cutoff == m.kernelCutoff && After(before).proof.None?
    requires m.cleanReference.Some? ==> m.packedMetadata
    requires m.attempted ==>
               m.packedMetadata && m.cleanReference.Some? && m.kernelCutoff.Some? && drain.Some?
    ensures Legal(t) && arm.NoArm?
    ensures After(t) ==
            After(before).(proof := proof, runtimeDown := After(before).runtimeDown
                                                          || (m.packedMetadata && !m.attempted && w.runtimeShutdown))
    ensures result == if !m.packedMetadata || (if m.attempted then w.proof else w.runtimeShutdown) then Fine
                      else Fails(if m.attempted then ProofFailed else RuntimeShutdownFailed)
    ensures proof == if m.attempted && w.proof
                     then Some(Proof(m.cleanReference.value, drain.value, m.kernelCutoff.value)) else None
  {
    result, proof, t, arm := Fine, None, before, NoArm;
    if !m.attempted && m.packedMetadata {
      if w.runtimeShutdown {
        t := Log(t, RuntimeShutDown);
      } else {
        result := Fails(RuntimeShutdownFailed);
      }
    } else if m.cleanReference.Some? {
      if drain.Some? && m.kernelCutoff.Some? {
        if w.proof {
          proof := Some(Proof(m.cleanReference.value, drain.value, m.kernelCutoff.value));
          t := Log(t, ProofBuilt(proof.value));
        } else {
          result := Fails(ProofFailed);
        }
      } else {
        arm, result := AuthorityMissingArm, Fails(ShutdownAuthorityMissing);
      }
    } else if m.packedMetadata {
      arm := PlainSessionArm;
      if !w.sessionShutdown { result := Fails(SessionShutdownFailed); }
    }
  }

  /** Drains, shuts the metadata down and releases the lease, once the kernel cutoff is settled. */
  method DrainAndRelease(w: World, m: Mounted, mountResult: Reply, before: Trace)
    returns (o: Outcome, t: Trace, arm: Arm)
    requires Legal(before) && BlockEnded(w, m, mountResult, After(before)) && !After(before).gc
    requires m.attempted ==> m.cutoffVerified
    ensures Legal(t) && arm.NoArm?
    ensures After(t).lease == if o.RetainedWith? then Kept else GivenBack
    ensures o.RetainedWith? <==> !TeardownSucceeds(w, m)
    ensures o == if o.RetainedWith? then RetainedWith(o.primary, true, m.packedMetadata, m.packedVfs)
                 else if mountResult.Fails? then Stopped(mountResult.failure)
                 else if w.release then Finished else Stopped(ReleaseFailed)
    ensures o.RetainedWith? ==> o.primary == FirstFailure(w, m, mountResult)
    ensures !o.RetainedWith? ==>
              t.event == ReleaseFor(w, m.attempted) && After(t).runtimeDown == (m.packedMetadata && !m.attempted)
    ensures After(t).attempted == m.attempted && !After(t).gc && After(t).backendUp
  {
    var session := true;
    arm, t := NoArm, before;
    var renewals, drainResult, drain;
    renewals, drainResult, drain, t := CloseAndDrain(w, m, t);
    var metadataResult, proof := Fails(DrainNotReached), None;
    if drainResult.Fine? && renewals.Fine? {
      metadataResult, proof, t, arm := ShutMetadata(w, m, drain, t);
    }
    var releaseResult := Fails(LeaseNotReleased);
    if metadataResult.Fine? {
      session := false;
      t := Log(t, if proof.Some? then ReleasedClean(proof.value) else ReleasedPlainly);
      releaseResult := if w.release then Fine else Fails(ReleaseFailed);
    }
    if drainResult.Fails? || renewals.Fails? || metadataResult.Fails? {
      var primary := OrElse(OrElse(OrElse(mountResult, drainResult), renewals), metadataResult).failure;
      return RetainedWith(primary, session, m.packedMetadata, m.packedVfs), Log(t, Retained), arm;
    }
    if mountResult.Fails? { return Stopped(mountResult.failure), t, arm; }
    if releaseResult.Fails? { return Stopped(releaseResult.failure), t, arm; }
    return Finished, t, arm;
  }

  /** The only release a run may end in: clean, with a proof made of this mount's own reference,
      drain and cutoff, when a packed mount was attempted; plain otherwise. */
  function ReleaseFor(w: World, attempted: bool): Event {
    if attempted && w.reference.Some?
    then ReleasedClean(Proof(w.reference.value, Drain(w.vfsId), Cutoff(w.kernelMount)))
    else ReleasedPlainly
  }

  method TearDown(w: World, m: Mounted, mountResult: Reply, before: Trace)
    returns (o: Outcome, t: Trace, arm: Arm)
    requires Legal(before) && BlockEnded(w, m, mountResult, After(before))
    requires After(before).gc == !w.operatorManaged
    ensures Legal(t) && arm.NoArm?
    ensures After(t).lease == if o.RetainedWith? then Kept else GivenBack
    ensures o.RetainedWith? <==> (m.attempted && !m.cutoffVerified) || !TeardownSucceeds(w, m)
    ensures o == if o.RetainedWith? then RetainedWith(o.primary, true, m.packedMetadata, m.packedVfs)
                 else if mountResult.Fails? then Stopped(mountResult.failure)
                 else if w.release then Finished else Stopped(ReleaseFailed)
    ensures o.RetainedWith? ==> o.primary == FirstFailure(w, m, mountResult)
    ensures !o.RetainedWith? ==>
              t.event == ReleaseFor(w, m.attempted) && After(t).runtimeDown == (m.packedMetadata && !m.attempted)
    ensures After(t).attempted == m.attempted && !After(t).gc && After(t).backendUp
  {
    arm, t := NoArm, before;
    if !w.operatorManaged { t := Log(t, GcStopped); }
    if m.attempted && !m.cutoffVerified {
      var primary := if mountResult.Fails? then mountResult.failure else StillMounted;
      if mountResult.Fine? { arm := StillMountedArm; }
      return RetainedWith(primary, true, m.packedMetadata, m.packedVfs), Log(t, Retained), arm;
    }
    o, t, arm := DrainAndRelease(w, m, mountResult, t);
  }

  /** Everything from the start of garbage collection on, under the acquired lease. */
  method MountHeld(w: World, before: Trace) returns (o: Outcome, t: Trace)
    requires Legal(before) && After(before) == Outset.(lease := Held)
    ensures Legal(t)
    ensures After(t).lease == if Retains(w) then Kept else GivenBack
    ensures o.RetainedWith? <==> Retains(w)
    ensures !Retains(w) ==>
              t.event == ReleaseFor(w, Attempts(w)) && After(t).runtimeDown == (HasMetadata(w) && !Attempts(w))
    ensures Verdict(o) == OrElse(BlockReply(w), CloseReply(w))
    ensures o.RetainedWith? ==>
              o.session && o.metadata == HasMetadata(w) && o.vfs == if HasVfs(w) then Some(w.vfsId) else None
    ensures !After(t).gc && After(t).backendUp
  {
    t := before;
    if !w.operatorManaged { t := Log(t, GcStarted); }
    var mountResult, m;
    mountResult, m, t := MountBlock(w, t);
    var arm;
    o, t, arm := TearDown(w, m, mountResult, t);
  }

  /** The whole of `mount_workspace_with_catalog`. Once a session was acquired, the lease is given
      back by exactly one release or kept with its runtime, except when the workspace record or its
      bucket fails before the mount block: only then is the session dropped without either. */
  method MountWorkspace(w: World) returns (o: Outcome, t: Trace)
    ensures Legal(t)
    ensures After(t).lease.Free? <==> !(w.preflight && w.acquire)
    ensures After(t).lease.Abandoned? <==> w.preflight && w.acquire && !(w.loadWorkspace && w.bucketAccepted)
    ensures After(t).lease.Kept? <==>
            w.preflight && w.acquire && w.loadWorkspace && w.bucketAccepted && Retains(w)
    ensures After(t).lease.Kept? <==> o.RetainedWith?
    ensures After(t).lease.GivenBack? ==>
              t.event == ReleaseFor(w, Attempts(w)) && After(t).runtimeDown == (HasMetadata(w) && !Attempts(w))
    ensures Verdict(o) == RunReply(w)
    ensures o.Finished? <==>
            && w.preflight && w.acquire && w.loadWorkspace && w.bucketAccepted && w.loadBinding
            && (w.bound ==> w.supportsPacked && w.client && w.attach)
            && w.initialize && w.writebackRoot && w.writebackIdentity && w.vfs && w.mount
            && (w.packed ==> w.reference.Some? && w.prepare && w.capture && w.workerJoin && w.quiesce && w.proof)
            && (if w.signalFirst then w.signal && w.unmount else w.sessionEnd)
            && w.closeRenewals && w.release
    ensures o.RetainedWith? ==>
              o.session && o.metadata == HasMetadata(w) && o.vfs == if HasVfs(w) then Some(w.vfsId) else None
    ensures !After(t).lease.Held? && !After(t).gc && After(t).backendUp
  {
    RunSucceeds(w);
    t := Nothing;
    if !w.preflight { return Stopped(PreflightFailed), t; }
    if !w.acquire { return Stopped(AcquireFailed), t; }
    t := Log(t, Acquired);
    if !w.loadWorkspace { return Stopped(WorkspaceLoadFailed), Log(t, Dropped); }
    if !w.bucketAccepted { return Stopped(BucketRejected), Log(t, Dropped); }
    o, t := MountHeld(w, t);
  }

  /** The TiKV arm of the dispatch: the metadata backend is shut down exactly when the mount did not
      retain its runtime, and never under a lease that is still in use. */
  method MountOnTikv(w: World) returns (o: Outcome, t: Trace)
    ensures Legal(t)
    ensures After(t).backendUp <==> o.RetainedWith?
    ensures After(t).lease.Kept? <==> o.RetainedWith?
    ensures Verdict(o) == OrElse(RunReply(w), if w.backendShutdown then Fine else Fails(BackendShutdownFailed))
  {
    o, t := MountWorkspace(w);
    if o.RetainedWith? { return; }
    t := Log(t, BackendShutDown);
    if o.Finished? && !w.backendShutdown {
      o := Stopped(BackendShutdownFailed);
    }
  }

  // ---------------------------------------------------------------- what a legal trace guarantees

  /** How often a trace gives the lease back, keeps it or lets it go. */
  function LeaseEnds(t: Trace): nat {
    if t.Nothing? then 0
    else LeaseEnds(t.earlier) +
         match t.event
         case ReleasedPlainly => 1
         case ReleasedClean(_) => 1
         case Retained => 1
         case Dropped => 1
         case _ => 0
  }

  predicate Happened(t: Trace, e: Event) {
    t.Then? && (t.event == e || Happened(t.earlier, e))
  }

  /** `second` happened at a time when `first` had happened. */
  predicate HappenedAfter(t: Trace, first: Event, second: Event) {
    t.Then? && ((t.event == second && Happened(t.earlier, first)) || HappenedAfter(t.earlier, first, second))
  }

  /** A legal trace ends the lease at most once, so it never both releases and retains. */
  lemma {:induction false} LeaseEndsOnce(t: Trace)
    requires Legal(t)
    ensures LeaseEnds(t) == if After(t).lease.Free? || After(t).lease.Held? then 0 else 1
  {
    if t.Then? {
      LeaseEndsOnce(t.earlier);
      match t.event
      case Acquired => case Dropped => case ReleasedPlainly => case ReleasedClean(_) => case Retained =>
      case _ => assert After(t).lease == After(t.earlier).lease;
    }
  }

  lemma {:induction false} AttemptHappened(t: Trace)
    requires Happened(t, AttachmentMarked)
    ensures After(t).attempted
  {
    if t.event != AttachmentMarked {
      AttemptHappened(t.earlier);
    }
  }

  lemma {:induction false} CloseHappened(t: Trace)
    requires After(t).closed
    ensures Happened(t, RenewalsClosed)
  {
    if t.event != RenewalsClosed {
      CloseHappened(t.earlier);
    }
  }

  lemma {:induction false} JoinHappened(t: Trace)
    requires After(t).joined
    ensures Happened(t, WorkersJoined)
  {
    if t.event != WorkersJoined {
      JoinHappened(t.earlier);
    }
  }

  lemma {:induction false} DrainStays(s: Standing, e: Event, d: Drain)
    requires Follow(s, e).drain == Some(d) && e != Drained(d)
    ensures s.drain == Some(d)
  {
  }

  lemma {:induction false} CutoffStays(s: Standing, e: Event, c: Cutoff)
    requires Follow(s, e).cutoff == Some(c) && e != CutoffVerified(c)
    ensures s.cutoff == Some(c)
  {
  }

  lemma {:induction false} ProofStays(s: Standing, e: Event, p: Proof)
    requires Follow(s, e).proof == Some(p) && e != ProofBuilt(p)
    ensures s.proof == Some(p)
  {
  }

  lemma {:induction false} DrainHappened(t: Trace, d: Drain)
    requires Legal(t) && After(t).drain == Some(d)
    ensures Happened(t, Drained(d)) && HappenedAfter(t, RenewalsClosed, Drained(d))
  {
    if t.event == Drained(d) {
      CloseHappened(t.earlier);
    } else {
      DrainStays(After(t.earlier), t.event, d);
      DrainHappened(t.earlier, d);
    }
  }

  lemma {:induction false} CutoffHappened(t: Trace, c: Cutoff)
    requires Legal(t) && After(t).cutoff == Some(c)
    ensures Happened(t, CutoffVerified(c)) && HappenedAfter(t, WorkersJoined, CutoffVerified(c))
  {
    if t.event == CutoffVerified(c) {
      JoinHappened(t.earlier);
    } else {
      CutoffStays(After(t.earlier), t.event, c);
      CutoffHappened(t.earlier, c);
    }
  }

  lemma {:induction false} ProofHappened(t: Trace, p: Proof)
    requires Legal(t) && After(t).proof == Some(p)
    ensures Happened(t, ProofBuilt(p))
    ensures HappenedAfter(t, Drained(p.drain), ProofBuilt(p))
    ensures HappenedAfter(t, CutoffVerified(p.cutoff), ProofBuilt(p))
    ensures HappenedAfter(t, RenewalsClosed, Drained(p.drain))
    ensures HappenedAfter(t, WorkersJoined, CutoffVerified(p.cutoff))
  {
    if t.event == ProofBuilt(p) {
      DrainHappened(t.earlier, p.drain);
      CutoffHappened(t.earlier, p.cutoff);
    } else {
      ProofStays(After(t.earlier), t.event, p);
      ProofHappened(t.earlier, p);
    }
  }

  /** In a legal trace a release of an attempted packed mount is a clean one: its proof was built
      after the drain and after the verified cutoff it names, renewals were closed before that
      drain, and the workers had joined before that cutoff. */
  lemma {:induction false} AttemptedReleaseIsProven(t: Trace)
    requires Legal(t) && t.Then? && Happened(t.earlier, AttachmentMarked)
    requires t.event.ReleasedPlainly? || t.event.ReleasedClean?
    ensures t.event.ReleasedClean?
    ensures HappenedAfter(t, ProofBuilt(t.event.proof), t.event)
    ensures HappenedAfter(t, Drained(t.event.proof.drain), ProofBuilt(t.event.proof))
    ensures HappenedAfter(t, CutoffVerified(t.event.proof.cutoff), ProofBuilt(t.event.proof))
    ensures HappenedAfter(t, RenewalsClosed, Drained(t.event.proof.drain))
    ensures HappenedAfter(t, WorkersJoined, CutoffVerified(t.event.proof.cutoff))
  {
    AttemptHappened(t.earlier);
    ProofHappened(t.earlier, t.event.proof);
  }
}
