/**
  Who may act on the device: the runtime's lifecycle lock, its mutation lock and its Interact lease,
  for any number of threads.

  Every region the source runs under `_operation_lock`, and every lock operation, is one step; the
  scheduler may interleave the steps of all threads in any order.
*/
module RuntimeExclusion {
  import opened Wrappers

  type Tid = nat
  type Token = nat

  /** Where a thread is inside `_ownership_change`, `_mutation`, or `close`. */
  datatype Pc =
    | Idle
    | LifecycleHeld
    | Announced
    | Changing
    | Waiting(awaited: set<Tid>)
    | Quiet
    | ChangeFailing(announced: bool)
    | Unwinding(locked: bool)
    | Admitting(owner: Option<Token>)
    | Locked(owner: Option<Token>)
    | Leaving
    | CloseWaiting(awaited: set<Tid>)
    | CloseHeld

  /** `frames` are the counted mutations the thread is inside of, `lease` the Interact it runs. */
  datatype Thread = Thread(pc: Pc, frames: seq<Option<Token>>, lease: Option<Token>, controls: bool)

  datatype State = State(
    lifecycleLock: Option<Tid>,
    lifecycleActive: bool,
    mutationLock: Option<(Tid, nat)>,
    activeMutations: nat,
    interactOwner: Option<Token>,
    nextToken: Token,
    closing: bool,
    monitors: set<Tid>,
    threads: map<Tid, Thread>)

  const RESTING := Thread(Idle, [], None, false)

  const START := State(None, false, None, 0, None, 0, false, {}, map[])

  function T(s: State, t: Tid): Thread {
    if t in s.threads then s.threads[t] else RESTING
  }

  datatype Step =
    | RequestChange(t: Tid)
    | CheckChange(t: Tid)
    | TryMutationLock(t: Tid)
    | CollectMonitors(t: Tid)
    | MonitorsCompleted(t: Tid)
    | EndChange(t: Tid)
    | UnwindMutation(t: Tid)
    | UnwindLifecycle(t: Tid)
    | RequestMutation(t: Tid, owner: Option<Token>)
    | LockMutation(t: Tid)
    | Admit(t: Tid, recorderReady: bool)
    | FinishMutation(t: Tid)
    | UnlockMutation(t: Tid)
    | TakeLease(t: Tid)
    | DropLease(t: Tid)
    | EnterControls(t: Tid)
    | ExitControls(t: Tid)
    | BeginMonitor(t: Tid)
    | EndMonitor(t: Tid)
    | BeginClose(t: Tid)
    | LockClose(t: Tid)
    | EndClose(t: Tid)

  /** A re-entrant lock can be taken when free or already one's own. */
  predicate CanLock(s: State, t: Tid) {
    s.mutationLock.None? || s.mutationLock.value.0 == t
  }

  function Lock(s: State, t: Tid): Option<(Tid, nat)>
    requires CanLock(s, t)
  {
    Some((t, 1 + if s.mutationLock.None? then 0 else s.mutationLock.value.1))
  }

  function Unlock(s: State): Option<(Tid, nat)> {
    match s.mutationLock
    case Some((t, depth)) => if depth <= 1 then None else Some((t, depth - 1))
    case None => None
  }

  /** `_check_interact_owner` does not raise. */
  predicate OwnerMayPass(s: State, owner: Option<Token>) {
    !s.lifecycleActive && (s.interactOwner.None? || s.interactOwner == owner)
  }

  /** Whether thread `step.t`, now `th`, can take the step. */
  predicate Enabled(s: State, th: Thread, step: Step) {
    match step
    case RequestChange(_) => th.pc.Idle? && s.lifecycleLock.None?
    case CheckChange(_) => th.pc.LifecycleHeld?
    case TryMutationLock(_) => th.pc.Announced?
    case CollectMonitors(_) => th.pc.Changing?
    case MonitorsCompleted(_) => th.pc.Waiting? && th.pc.awaited * s.monitors == {}
    case EndChange(_) => (th.pc.Changing? || th.pc.Waiting? || th.pc.Quiet? || th.pc.ChangeFailing?) && !th.controls
    case UnwindMutation(_) => th.pc.Unwinding? && th.pc.locked
    case UnwindLifecycle(_) => th.pc.Unwinding? && !th.pc.locked
    case RequestMutation(_, owner) => th.pc.Idle? && (owner.None? || owner == th.lease) && OwnerMayPass(s, owner)
    case LockMutation(t) => th.pc.Admitting? && CanLock(s, t)
    case Admit(_, _) => th.pc.Locked?
    case FinishMutation(_) => th.pc.Idle? && th.frames != []
    case UnlockMutation(_) => th.pc.Leaving?
    case TakeLease(_) => th.pc.Idle? && th.lease.None? && th.frames == [None]
    case DropLease(_) => th.pc.Idle? && th.lease.Some? && th.frames == []
    case EnterControls(t) => (th.pc.Idle? || th.pc.Changing? || th.pc.Quiet?) && !th.controls && CanLock(s, t) && !s.closing
    case ExitControls(_) => th.controls
    case BeginMonitor(t) => th.pc.Idle? && t !in s.monitors && !s.closing && !s.lifecycleActive
    case EndMonitor(t) => t in s.monitors
    case BeginClose(_) => th == RESTING && !s.closing
    case LockClose(t) => th.pc.CloseWaiting? && th.pc.awaited * s.monitors == {} && CanLock(s, t)
    case EndClose(_) => th.pc.CloseHeld?
  }

  predicate ChangeRefused(s: State) {
    s.closing || !OwnerMayPass(s, None) || s.activeMutations > 0
  }

  predicate Admits(s: State, th: Thread, recorderReady: bool)
    requires th.pc.Locked?
  {
    OwnerMayPass(s, th.pc.owner) && !s.closing && recorderReady
  }

  /** The step's effect on what all threads share. */
  function Shared(s: State, th: Thread, step: Step): State
    requires Enabled(s, th, step)
  {
    match step
    case RequestChange(t) => s.(lifecycleLock := Some(t))
    case CheckChange(_) => if ChangeRefused(s) then s else s.(lifecycleActive := true)
    case TryMutationLock(t) => if CanLock(s, t) then s.(mutationLock := Lock(s, t)) else s
    case EndChange(_) => s.(lifecycleActive := false)
    case UnwindMutation(_) => s.(mutationLock := Unlock(s))
    case UnwindLifecycle(_) => s.(lifecycleLock := None)
    case LockMutation(t) => s.(mutationLock := Lock(s, t))
    case Admit(_, ready) => if Admits(s, th, ready) then s.(activeMutations := s.activeMutations + 1) else s
    case FinishMutation(_) => s.(activeMutations := if s.activeMutations > 0 then s.activeMutations - 1 else 0)
    case UnlockMutation(_) => s.(mutationLock := Unlock(s))
    case TakeLease(_) => s.(interactOwner := Some(s.nextToken), nextToken := s.nextToken + 1)
    case DropLease(_) => s.(interactOwner := None)
    case EnterControls(t) => s.(mutationLock := Lock(s, t))
    case ExitControls(_) => s.(mutationLock := Unlock(s))
    case BeginMonitor(t) => s.(monitors := s.monitors + {t})
    case EndMonitor(t) => s.(monitors := s.monitors - {t})
    case BeginClose(_) => s.(closing := true)
    case LockClose(t) => s.(mutationLock := Lock(s, t))
    case EndClose(_) => s.(mutationLock := Unlock(s))
    case _ => s
  }

  /** The step's effect on the thread that takes it. */
  function Moved(s: State, th: Thread, step: Step): Thread
    requires Enabled(s, th, step)
  {
    match step
    case RequestChange(_) => th.(pc := LifecycleHeld)
    case CheckChange(_) => th.(pc := if ChangeRefused(s) then ChangeFailing(false) else Announced)
    case TryMutationLock(t) => th.(pc := if CanLock(s, t) then Changing else ChangeFailing(true))
    case CollectMonitors(_) => th.(pc := Waiting(s.monitors))
    case MonitorsCompleted(_) => th.(pc := Quiet)
    case EndChange(_) => th.(pc := Unwinding(!th.pc.ChangeFailing?))
    case UnwindMutation(_) => th.(pc := Unwinding(false))
    case UnwindLifecycle(_) => th.(pc := Idle)
    case RequestMutation(_, owner) => th.(pc := Admitting(owner))
    case LockMutation(_) => th.(pc := Locked(th.pc.owner))
    case Admit(_, ready) => if Admits(s, th, ready) then th.(pc := Idle, frames := th.frames + [th.pc.owner]) else th.(pc := Leaving)
    case FinishMutation(_) => th.(pc := Leaving, frames := th.frames[..|th.frames| - 1])
    case UnlockMutation(_) => th.(pc := Idle)
    case TakeLease(_) => th.(lease := Some(s.nextToken))
    case DropLease(_) => th.(lease := None)
    case EnterControls(_) => th.(controls := true)
    case ExitControls(_) => th.(controls := false)
    case BeginMonitor(_) => th
    case EndMonitor(_) => th
    case BeginClose(_) => th.(pc := CloseWaiting(s.monitors))
    case LockClose(_) => th.(pc := CloseHeld)
    case EndClose(_) => th.(pc := Idle)
  }

  predicate CanStep(s: State, step: Step) {
    Enabled(s, T(s, step.t), step)
  }

  function Do(s: State, step: Step): State
    requires CanStep(s, step)
  {
    var th := T(s, step.t);
    Shared(s, th, step).(threads := s.threads[step.t := Moved(s, th, step)])
  }

  /** The state after a run, unless one of its steps could not be taken. */
  function Final(run: seq<Step>): Option<State> {
    if run == [] then Some(START)
    else match Final(run[..|run| - 1])
         case Some(before) =>
           var step := run[|run| - 1];
           if CanStep(before, step) then Some(Do(before, step)) else None
         case None => None
  }

  ghost predicate Reachable(s: State) {
    exists run :: Final(run) == Some(s)
  }

  // ----- What every state satisfies -----

  function Bit(b: bool): nat {
    if b then 1 else 0
  }

  /** How often the thread has taken the mutation lock without giving it back. */
  function Depth(th: Thread): nat {
    |th.frames| + Bit(th.controls)
    + Bit(th.pc.Locked? || th.pc.Leaving? || th.pc.Changing? || th.pc.Waiting? || th.pc.Quiet? || th.pc.CloseHeld?
          || (th.pc.Unwinding? && th.pc.locked))
  }

  predicate HoldsLifecycle(pc: Pc) {
    pc.LifecycleHeld? || pc.Announced? || pc.Changing? || pc.Waiting? || pc.Quiet? || pc.ChangeFailing? || pc.Unwinding?
  }

  predicate Owning(pc: Pc) {
    pc.Announced? || pc.Changing? || pc.Waiting? || pc.Quiet?
  }

  predicate Active(pc: Pc) {
    Owning(pc) || (pc.ChangeFailing? && pc.announced)
  }

  // What the shared fields say about one thread `t`, now `th`.

  ghost predicate LifecycleLocal(s: State, t: Tid, th: Thread) {
    && (HoldsLifecycle(th.pc) <==> s.lifecycleLock == Some(t))
    && (Active(th.pc) ==> s.lifecycleActive)
    && (s.lifecycleActive && s.lifecycleLock == Some(t) ==> Active(th.pc))
  }

  ghost predicate MutexLocal(s: State, t: Tid, th: Thread) {
    && (Depth(th) > 0 ==> s.mutationLock == Some((t, Depth(th))))
    && (s.mutationLock.Some? && s.mutationLock.value.0 == t ==> Depth(th) > 0 && s.activeMutations == |th.frames|)
    && (th.pc.CloseWaiting? || th.pc.CloseHeld? ==> th.frames == [] && !th.controls)
  }

  ghost predicate LeaseLocal(s: State, th: Thread) {
    && (th.lease.Some? ==> s.interactOwner == th.lease)
    && (s.interactOwner.Some? && th.frames != [] ==> th.lease == s.interactOwner)
    && ((th.pc.Admitting? || th.pc.Locked?) && th.pc.owner.Some? ==> th.lease == th.pc.owner)
  }

  ghost predicate OwningLocal(s: State, th: Thread) {
    Owning(th.pc) ==> s.activeMutations == 0 && s.interactOwner.None?
  }

  ghost predicate MonitorLocal(s: State, th: Thread) {
    && (th.pc.Waiting? ==> s.monitors <= th.pc.awaited)
    && (th.pc.Quiet? ==> s.monitors == {})
    && (th.pc.CloseWaiting? ==> s.closing && s.monitors <= th.pc.awaited)
    && (th.pc.CloseHeld? ==> s.closing && s.monitors == {})
  }

  ghost predicate Local(s: State, t: Tid, th: Thread) {
    LifecycleLocal(s, t, th) && MutexLocal(s, t, th) && LeaseLocal(s, th) && OwningLocal(s, th) && MonitorLocal(s, th)
  }

  ghost predicate SharedInv(s: State) {
    && (s.lifecycleActive ==> s.lifecycleLock.Some?)
    && (s.mutationLock.None? ==> s.activeMutations == 0)
  }

  ghost predicate Inv(s: State) {
    && SharedInv(s)
    && (forall t :: Local(s, t, T(s, t)))
    && (forall t, u :: T(s, t).lease.Some? && T(s, u).lease.Some? ==> t == u)
  }

  lemma StepKeepsInv(s: State, step: Step)
    requires Inv(s) && CanStep(s, step)
    ensures Inv(Do(s, step))
  {
    var t, g := step.t, Do(s, step);
    var th := T(s, t);
    var shared, moved := Shared(s, th, step), Moved(s, th, step);
    assert Local(s, t, th);
    assert T(g, t) == moved && forall u :: u != t ==> T(g, u) == T(s, u);
    OwnKept(s, step, th);
    hide *;
    forall u
      ensures Local(g, u, T(g, u))
    {
      LocalIsShared(shared, g, u, T(g, u));
      if u != t {
        InvAt(s, u, t);
        OthersKept(s, step, th, u, T(s, u));
      }
    }
    SingleLeaseKept(s, step, g);
    InvFrom(g, shared);
  }

  lemma SingleLeaseKept(s: State, step: Step, g: State)
    requires Inv(s) && CanStep(s, step)
    requires T(g, step.t) == Moved(s, T(s, step.t), step) && forall u :: u != step.t ==> T(g, u) == T(s, u)
    ensures forall u: Tid, w: Tid :: T(g, u).lease.Some? && T(g, w).lease.Some? ==> u == w
  {
    var t := step.t;
    hide Inv, Enabled, Moved, T, Local;
    forall u: Tid, w: Tid | T(g, u).lease.Some? && T(g, w).lease.Some?
      ensures u == w
    {
      InvAt(s, u, t);
      InvAt(s, w, t);
      InvAt(s, u, w);
      InvAt(s, t, t);
      LeasesStaySingle(s, step, T(s, t), T(s, if u == t then w else u), if u == t then w else u);
    }
  }

  lemma InvAt(s: State, u: Tid, w: Tid)
    requires Inv(s)
    ensures Local(s, u, T(s, u)) && SharedInv(s)
    ensures T(s, u).lease.Some? && T(s, w).lease.Some? ==> u == w
  {
  }

  lemma InvFrom(g: State, shared: State)
    requires SharedInv(shared) && g == shared.(threads := g.threads)
    requires forall u :: Local(g, u, T(g, u))
    requires forall u: Tid, w: Tid :: T(g, u).lease.Some? && T(g, w).lease.Some? ==> u == w
    ensures Inv(g)
  {
  }

  lemma LocalIsShared(shared: State, g: State, u: Tid, th: Thread)
    requires g == shared.(threads := g.threads)
    ensures Local(shared, u, th) <==> Local(g, u, th)
  {
  }

  lemma OwnKept(s: State, step: Step, th: Thread)
    requires Enabled(s, th, step) && Local(s, step.t, th) && SharedInv(s)
    ensures Local(Shared(s, th, step), step.t, Moved(s, th, step)) && SharedInv(Shared(s, th, step))
  {
    OwnLifecycle(s, step, th);
    OwnMutex(s, step, th);
    OwnLease(s, step, th);
    OwnMonitors(s, step, th);
    hide Enabled, Shared, Moved, LifecycleLocal, MutexLocal, LeaseLocal, OwningLocal, MonitorLocal;
  }

  lemma OwnLifecycle(s: State, step: Step, th: Thread)
    requires Enabled(s, th, step) && LifecycleLocal(s, step.t, th)
    requires s.lifecycleActive ==> s.lifecycleLock.Some?
    ensures LifecycleLocal(Shared(s, th, step), step.t, Moved(s, th, step))
    ensures Shared(s, th, step).lifecycleActive ==> Shared(s, th, step).lifecycleLock.Some?
  {
  }

  lemma OwnMutex(s: State, step: Step, th: Thread)
    requires Enabled(s, th, step) && MutexLocal(s, step.t, th)
    requires s.mutationLock.None? ==> s.activeMutations == 0
    ensures MutexLocal(Shared(s, th, step), step.t, Moved(s, th, step))
    ensures Shared(s, th, step).mutationLock.None? ==> Shared(s, th, step).activeMutations == 0
  {
    hide OwnerMayPass, ChangeRefused, Admits;
  }

  lemma OwnLease(s: State, step: Step, th: Thread)
    requires Enabled(s, th, step) && LeaseLocal(s, th) && OwningLocal(s, th) && MutexLocal(s, step.t, th) && LifecycleLocal(s, step.t, th)
    ensures LeaseLocal(Shared(s, th, step), Moved(s, th, step)) && OwningLocal(Shared(s, th, step), Moved(s, th, step))
  {
    OwnOwning(s, step, th);
    hide OwningLocal, ChangeRefused, LifecycleLocal, MutexLocal;
  }

  lemma OwnOwning(s: State, step: Step, th: Thread)
    requires Enabled(s, th, step) && OwningLocal(s, th) && MutexLocal(s, step.t, th) && LifecycleLocal(s, step.t, th)
    ensures OwningLocal(Shared(s, th, step), Moved(s, th, step))
  {
  }

  lemma OwnMonitors(s: State, step: Step, th: Thread)
    requires Enabled(s, th, step) && MonitorLocal(s, th) && LifecycleLocal(s, step.t, th)
    ensures MonitorLocal(Shared(s, th, step), Moved(s, th, step))
  {
  }

  /** No thread's step disturbs what holds of another. */
  lemma OthersKept(s: State, step: Step, th: Thread, u: Tid, other: Thread)
    requires u != step.t && Enabled(s, th, step) && Local(s, step.t, th) && Local(s, u, other)
    requires th.lease.Some? ==> other.lease.None?
    ensures Local(Shared(s, th, step), u, other)
  {
    OthersLifecycle(s, step, th, u, other);
    OthersMutex(s, step, th, u, other);
    OthersLease(s, step, th, u, other);
    OthersMonitors(s, step, th, u, other);
    hide Enabled, Shared, LifecycleLocal, MutexLocal, LeaseLocal, OwningLocal, MonitorLocal;
  }

  lemma OthersLifecycle(s: State, step: Step, th: Thread, u: Tid, other: Thread)
    requires u != step.t && Enabled(s, th, step) && LifecycleLocal(s, step.t, th) && LifecycleLocal(s, u, other)
    ensures LifecycleLocal(Shared(s, th, step), u, other)
  {
    hide CanLock, OwnerMayPass, Depth;
  }

  lemma OthersMutex(s: State, step: Step, th: Thread, u: Tid, other: Thread)
    requires u != step.t && Enabled(s, th, step) && MutexLocal(s, step.t, th) && MutexLocal(s, u, other)
    ensures MutexLocal(Shared(s, th, step), u, other)
  {
    hide OwnerMayPass;
  }

  lemma OthersLease(s: State, step: Step, th: Thread, u: Tid, other: Thread)
    requires u != step.t && Enabled(s, th, step) && MutexLocal(s, step.t, th) && MutexLocal(s, u, other)
    requires LifecycleLocal(s, step.t, th) && LifecycleLocal(s, u, other)
    requires LeaseLocal(s, th) && LeaseLocal(s, other) && OwningLocal(s, other) && (th.lease.Some? ==> other.lease.None?)
    ensures LeaseLocal(Shared(s, th, step), other) && OwningLocal(Shared(s, th, step), other)
  {
  }

  lemma OthersMonitors(s: State, step: Step, th: Thread, u: Tid, other: Thread)
    requires u != step.t && Enabled(s, th, step) && MonitorLocal(s, other) && LifecycleLocal(s, u, other)
    ensures MonitorLocal(Shared(s, th, step), other)
  {
    hide CanLock, OwnerMayPass, Depth;
  }

  lemma LeasesStaySingle(s: State, step: Step, th: Thread, other: Thread, u: Tid)
    requires Enabled(s, th, step) && Local(s, step.t, th) && Local(s, u, other)
    requires th.lease.Some? && other.lease.Some? ==> u == step.t
    ensures Moved(s, th, step).lease.Some? && other.lease.Some? ==> u == step.t
  {
  }

  lemma {:induction false} RunKeepsInv(run: seq<Step>)
    requires Final(run).Some?
    ensures Inv(Final(run).value)
  {
    if run == [] {
      assert forall t :: T(START, t) == RESTING;
    } else {
      RunKeepsInv(run[..|run| - 1]);
      StepKeepsInv(Final(run[..|run| - 1]).value, run[|run| - 1]);
    }
  }

  // ----- The promises -----

  /** The thread is inside a section that may act on the device. */
  predicate Acting(th: Thread) {
    th.frames != [] || th.controls || th.pc.Changing? || th.pc.Waiting? || th.pc.Quiet? || th.pc.CloseHeld?
  }

  /** However many threads run, at most one of them is inside a section that may act on the device. */
  lemma OneActor(run: seq<Step>, t: Tid, u: Tid)
    requires Final(run).Some?
    requires var s := Final(run).value; Acting(T(s, t)) && Acting(T(s, u))
    ensures t == u
  {
    RunKeepsInv(run);
    var s := Final(run).value;
    assert Local(s, t, T(s, t)) && Local(s, u, T(s, u));
  }

  /** While connection ownership changes, no thread is inside a counted mutation or holds a lease, and
      once the monitors were waited for, none is left. */
  lemma OwnershipChangeIsAlone(run: seq<Step>, t: Tid, u: Tid)
    requires Final(run).Some?
    requires Owning(T(Final(run).value, t).pc)
    ensures var s := Final(run).value;
            && s.activeMutations == 0 && s.interactOwner.None?
            && T(s, u).frames == [] && T(s, u).lease.None? && (u != t ==> !Owning(T(s, u).pc))
            && (T(s, t).pc.Quiet? ==> s.monitors == {})
  {
    RunKeepsInv(run);
    var s := Final(run).value;
    assert Local(s, t, T(s, t)) && Local(s, u, T(s, u));
  }

  /** At most one Interact lease exists, and the shared field names it. */
  lemma OneLease(run: seq<Step>, t: Tid, u: Tid)
    requires Final(run).Some?
    requires var s := Final(run).value; T(s, t).lease.Some? && T(s, u).lease.Some?
    ensures t == u && Final(run).value.interactOwner == T(Final(run).value, t).lease
  {
    RunKeepsInv(run);
    assert Local(Final(run).value, t, T(Final(run).value, t));
  }

  /** While a lease is held, every counted mutation, and every one newly admitted, is its owner's. */
  lemma LeaseExcludesOthers(run: seq<Step>, t: Tid)
    requires Final(run).Some? && Final(run).value.interactOwner.Some?
    requires T(Final(run).value, t).frames != []
    ensures T(Final(run).value, t).lease == Final(run).value.interactOwner
  {
    RunKeepsInv(run);
    assert Local(Final(run).value, t, T(Final(run).value, t));
  }

  lemma AdmittedIsOwners(run: seq<Step>, t: Tid, recorderReady: bool)
    requires Final(run).Some?
    requires var s := Final(run).value; CanStep(s, Admit(t, recorderReady)) && s.interactOwner.Some?
    requires Do(Final(run).value, Admit(t, recorderReady)).activeMutations > Final(run).value.activeMutations
    ensures T(Final(run).value, t).lease == Final(run).value.interactOwner == T(Final(run).value, t).pc.owner
  {
    RunKeepsInv(run);
    assert Local(Final(run).value, t, T(Final(run).value, t));
  }

  /** The counter is the number of mutations in progress, all of one thread. */
  lemma CountIsExact(run: seq<Step>, t: Tid)
    requires Final(run).Some?
    ensures var s := Final(run).value;
            && (T(s, t).frames != [] ==> s.activeMutations == |T(s, t).frames|)
            && (s.activeMutations > 0 ==> s.mutationLock.Some? && |T(s, s.mutationLock.value.0).frames| == s.activeMutations)
  {
    RunKeepsInv(run);
    var s := Final(run).value;
    assert Local(s, t, T(s, t));
    if s.mutationLock.Some? {
      assert Local(s, s.mutationLock.value.0, T(s, s.mutationLock.value.0));
    }
  }

  /** The closing thread shuts the device down with no mutation counted and no monitor left, and
      after closing began no mutation is ever admitted and no monitor ever starts. */
  lemma ClosingIsFinal(run: seq<Step>, t: Tid, step: Step)
    requires Final(run).Some? && Final(run).value.closing && CanStep(Final(run).value, step)
    ensures var s, g := Final(run).value, Do(Final(run).value, step);
            && g.closing && g.activeMutations <= s.activeMutations && g.monitors <= s.monitors
            && (T(s, t).pc.CloseHeld? ==> s.activeMutations == 0 && s.monitors == {})
  {
    RunKeepsInv(run);
    assert Local(Final(run).value, t, T(Final(run).value, t));
  }

  // ----- A run with an Interact and an ownership change -----

  lemma StartIsReachable()
    ensures Reachable(START)
  {
    assert Final([]) == Some(START);
  }

  lemma TakeStep(s: State, step: Step, next: State)
    requires Reachable(s) && CanStep(s, step) && next == Do(s, step)
    ensures Reachable(next)
  {
    var run :| Final(run) == Some(s);
    assert (run + [step])[..|run|] == run;
    assert Final(run + [step]) == Some(next);
  }

  /** Thread 0 has just taken its lease. */
  const LEASED := State(None, false, Some((0, 1)), 1, Some(0), 1, false, {}, map[0 := Thread(Idle, [None], Some(0), false)])

  /** It observes, and is inside a mutation of its own. */
  const INTERACTING := State(None, false, Some((0, 1)), 1, Some(0), 1, false, {0}, map[0 := Thread(Idle, [Some(0)], Some(0), false)])

  /** The Interact is over. */
  const RELEASED := State(None, false, None, 0, None, 1, false, {}, map[0 := RESTING])

  /** Thread 1 changes connection ownership. */
  const CHANGED := State(Some(1), true, Some((1, 1)), 0, None, 1, false, {}, map[0 := RESTING, 1 := RESTING.(pc := Quiet)])

  lemma LeaseHappens()
    ensures Reachable(LEASED)
  {
    hide Reachable;
    StartIsReachable();
    var s1 := START.(threads := map[0 := RESTING.(pc := Admitting(None))]);
    TakeStep(START, RequestMutation(0, None), s1);
    var s2 := s1.(mutationLock := Some((0, 1)), threads := map[0 := RESTING.(pc := Locked(None))]);
    TakeStep(s1, LockMutation(0), s2);
    var s3 := s2.(activeMutations := 1, threads := map[0 := RESTING.(frames := [None])]);
    assert s2.threads[0].frames + [None] == [None];
    TakeStep(s2, Admit(0, true), s3);
    TakeStep(s3, TakeLease(0), LEASED);
  }

  lemma InteractHappens()
    ensures Reachable(INTERACTING)
  {
    hide Reachable;
    LeaseHappens();
    var th := RESTING.(lease := Some(0));
    var s1 := LEASED.(activeMutations := 0, threads := map[0 := th.(pc := Leaving)]);
    TakeStep(LEASED, FinishMutation(0), s1);
    var s2 := s1.(mutationLock := None, threads := map[0 := th]);
    TakeStep(s1, UnlockMutation(0), s2);
    var s3 := s2.(monitors := {0});
    assert {} + {0} == {0} && s2.threads[0 := th] == s2.threads;
    TakeStep(s2, BeginMonitor(0), s3);
    var s4 := s3.(threads := map[0 := th.(pc := Admitting(Some(0)))]);
    TakeStep(s3, RequestMutation(0, Some(0)), s4);
    var s5 := s4.(mutationLock := Some((0, 1)), threads := map[0 := th.(pc := Locked(Some(0)))]);
    TakeStep(s4, LockMutation(0), s5);
    assert s5.threads[0].frames + [Some(0)] == [Some(0)];
    TakeStep(s5, Admit(0, true), INTERACTING);
  }

  lemma InteractEnds()
    ensures Reachable(RELEASED)
  {
    hide Reachable;
    InteractHappens();
    var th := RESTING.(lease := Some(0));
    var s1 := INTERACTING.(activeMutations := 0, threads := map[0 := th.(pc := Leaving)]);
    TakeStep(INTERACTING, FinishMutation(0), s1);
    var s2 := s1.(mutationLock := None, threads := map[0 := th]);
    TakeStep(s1, UnlockMutation(0), s2);
    var s3 := s2.(monitors := {});
    assert s2.threads[0 := th] == s2.threads;
    TakeStep(s2, EndMonitor(0), s3);
    TakeStep(s3, DropLease(0), RELEASED);
  }

  /** The promises are not empty: after an Interact, connection ownership can change. */
  lemma ChangeHappens()
    ensures Reachable(CHANGED)
  {
    hide Reachable;
    InteractEnds();
    var s1 := RELEASED.(lifecycleLock := Some(1), threads := RELEASED.threads[1 := RESTING.(pc := LifecycleHeld)]);
    TakeStep(RELEASED, RequestChange(1), s1);
    var s2 := s1.(lifecycleActive := true, threads := s1.threads[1 := RESTING.(pc := Announced)]);
    TakeStep(s1, CheckChange(1), s2);
    var s3 := s2.(mutationLock := Some((1, 1)), threads := s2.threads[1 := RESTING.(pc := Changing)]);
    TakeStep(s2, TryMutationLock(1), s3);
    var s4 := s3.(threads := s3.threads[1 := RESTING.(pc := Waiting({}))]);
    TakeStep(s3, CollectMonitors(1), s4);
    assert s4.threads[1 := RESTING.(pc := Quiet)] == CHANGED.threads;
    TakeStep(s4, MonitorsCompleted(1), CHANGED);
  }

  // ----- Nothing is left behind -----

  /** Whoever the Interact field names is still in its Interact. */
  ghost predicate LeaseIsHeld(s: State) {
    s.interactOwner.Some? ==> exists t :: T(s, t).lease == s.interactOwner
  }

  lemma LeaseEffect(s: State, th: Thread, step: Step)
    requires Enabled(s, th, step)
    ensures var owner, lease := Shared(s, th, step).interactOwner, Moved(s, th, step).lease;
            match step
            case TakeLease(_) => owner == lease
            case DropLease(_) => owner.None?
            case _ => owner == s.interactOwner && lease == th.lease
  {
    hide ChangeRefused, Admits, CanLock, OwnerMayPass, Lock, Unlock;
  }

  lemma LeaseStaysHeld(s: State, step: Step)
    requires LeaseIsHeld(s) && CanStep(s, step)
    ensures LeaseIsHeld(Do(s, step))
  {
    var t, g := step.t, Do(s, step);
    LeaseEffect(s, T(s, t), step);
    hide Enabled, Shared, Moved;
    assert T(g, t) == Moved(s, T(s, t), step) && forall u :: u != t ==> T(g, u) == T(s, u);
    hide T;
    if s.interactOwner.Some? {
      var u :| T(s, u).lease == s.interactOwner;
      assert !step.TakeLease? && !step.DropLease? ==> T(g, u).lease == g.interactOwner;
    }
    assert step.TakeLease? ==> T(g, t).lease == g.interactOwner;
  }

  lemma {:induction false} LeaseEverHeld(run: seq<Step>)
    requires Final(run).Some?
    ensures LeaseIsHeld(Final(run).value)
  {
    hide Inv, Do, CanStep, LeaseIsHeld;
    if run == [] {
      assert LeaseIsHeld(START) by { NoLease(); }
    } else {
      RunKeepsInv(run[..|run| - 1]);
      LeaseEverHeld(run[..|run| - 1]);
      LeaseStaysHeld(Final(run[..|run| - 1]).value, run[|run| - 1]);
    }
  }

  lemma NoLease()
    ensures LeaseIsHeld(START)
  {
  }

  /** Once every thread is done, both locks, the announcement, the counter and the Interact field are free again,
      whatever the threads did before and however it failed. */
  lemma NothingLeftBehind(run: seq<Step>)
    requires Final(run).Some? && forall t :: T(Final(run).value, t) == RESTING
    ensures var s := Final(run).value;
            s.lifecycleLock.None? && !s.lifecycleActive && s.mutationLock.None? && s.activeMutations == 0 && s.interactOwner.None?
  {
    RunKeepsInv(run);
    LeaseEverHeld(run);
    var s := Final(run).value;
    hide Final, Local, SharedInv;
    assert s.interactOwner.None?;
    hide T;
    if s.lifecycleLock.Some? { HoldsNothing(s, s.lifecycleLock.value); }
    if s.mutationLock.Some? { HoldsNothing(s, s.mutationLock.value.0); }
    SharedMeans(s);
  }

  lemma HoldsNothing(s: State, t: Tid)
    requires Inv(s) && T(s, t) == RESTING
    ensures s.lifecycleLock != Some(t) && (s.mutationLock.Some? ==> s.mutationLock.value.0 != t)
  {
    assert Local(s, t, T(s, t));
    hide LeaseLocal, OwningLocal, MonitorLocal;
  }

  lemma SharedMeans(s: State)
    requires Inv(s)
    ensures (s.lifecycleActive ==> s.lifecycleLock.Some?) && (s.mutationLock.None? ==> s.activeMutations == 0)
  {
    hide Local;
  }

  /** Then, unless closing has begun, whoever asks next to act on the device may, as soon as the recorder is ready. */
  lemma FreeAdmits(run: seq<Step>, t: Tid)
    requires Final(run).Some? && (forall u :: T(Final(run).value, u) == RESTING) && !Final(run).value.closing
    ensures var more := run + [RequestMutation(t, None)] + [LockMutation(t)] + [Admit(t, true)];
            && Final(more).Some? && T(Final(more).value, t).frames == [None] && Final(more).value.activeMutations == 1
  {
    NothingLeftBehind(run);
    FinalSnoc(run, RequestMutation(t, None));
    FinalSnoc(run + [RequestMutation(t, None)], LockMutation(t));
    FinalSnoc(run + [RequestMutation(t, None)] + [LockMutation(t)], Admit(t, true));
    hide Final;
    ThreeSteps(Final(run).value, t);
  }

  lemma ThreeSteps(s: State, t: Tid)
    requires T(s, t) == RESTING && !s.closing && !s.lifecycleActive && s.mutationLock.None? && s.activeMutations == 0 && s.interactOwner.None?
    ensures CanStep(s, RequestMutation(t, None))
    ensures var s1 := Do(s, RequestMutation(t, None));
            && CanStep(s1, LockMutation(t))
            && var s2 := Do(s1, LockMutation(t));
               && CanStep(s2, Admit(t, true))
               && var s3 := Do(s2, Admit(t, true)); T(s3, t).frames == [None] && s3.activeMutations == 1
  {
  }

  lemma FinalSnoc(run: seq<Step>, step: Step)
    requires Final(run).Some?
    ensures Final(run + [step]) == if CanStep(Final(run).value, step) then Some(Do(Final(run).value, step)) else None
  {
    assert (run + [step])[..|run|] == run;
  }
}
