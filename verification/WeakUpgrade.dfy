/**
 `observer_ptr` racing with the last `ref_ptr`: any number of threads copy and drop strong references,
 upgrade the weak one under the auxiliary's mutex, and run the delete decision. Every atomic access is a
 step of its own, so a run is an arbitrary interleaving.
 */
module WeakUpgrade {
  type Thread = nat
  type Handle = nat

  /** Where a thread is inside `observer_ptr::operator ref_ptr` or `Object::_attemptDelete`. */
  datatype Phase =
    | Idle
    | UpLocked                  // holds the mutex
    | UpSeen(connected: bool)   // tested getConnectedObject() != nullptr
    | UpDone                    // made its ref_ptr, or a null one
    | DelPending                // fetch_sub returned at most 1
    | DelLocked                 // holds the mutex
    | DelKeep                   // read a positive count
    | DelZero                   // read count 0, or found the object disconnected
    | DelDecided                // set _connectedObject to nullptr
    | Deleting                  // gave the mutex back, about to `delete this`

  datatype Lock = Free | Held(owner: Thread)

  datatype State = State(
    count: nat,               // _referenceCount
    handles: set<Handle>,     // the live ref_ptrs
    connected: bool,          // _connectedObject != nullptr
    lock: Lock,               // _mutex
    phase: map<Thread, Phase>,
    deletes: nat)             // how many times `delete this` ran
  {
    function At(t: Thread): Phase {
      if t in phase then phase[t] else Idle
    }

    function Move(t: Thread, p: Phase): State {
      this.(phase := phase[t := p])
    }
  }

  datatype Step =
    | Copy(src: Handle, dst: Handle)
    | Drop(t: Thread, h: Handle)
    | UpLock(t: Thread)
    | UpTest(t: Thread)
    | UpTake(t: Thread, h: Handle)
    | UpUnlock(t: Thread)
    | DelLock(t: Thread)
    | DelRead(t: Thread)
    | DelDisconnect(t: Thread)
    | DelUnlock(t: Thread)
    | Delete(t: Thread)

  predicate Enabled(s: State, a: Step) {
    match a
    case Copy(src, dst) => src in s.handles && dst !in s.handles
    case Drop(t, h) => s.At(t) == Idle && h in s.handles
    case UpLock(t) => s.At(t) == Idle && s.lock == Free
    case UpTest(t) => s.At(t) == UpLocked
    case UpTake(t, h) => s.At(t).UpSeen? && h !in s.handles
    case UpUnlock(t) => s.At(t) == UpDone
    case DelLock(t) => s.At(t) == DelPending && s.lock == Free
    case DelRead(t) => s.At(t) == DelLocked
    case DelDisconnect(t) => s.At(t) == DelZero
    case DelUnlock(t) => s.At(t) == DelKeep || s.At(t) == DelDecided
    case Delete(t) => s.At(t) == Deleting
  }

  function Apply(s: State, a: Step): State {
    match a
    case Copy(_, dst) => s.(count := s.count + 1, handles := s.handles + {dst})
    case Drop(t, h) =>
      var after := s.(count := if s.count > 0 then s.count - 1 else 0, handles := s.handles - {h});
      if s.count <= 1 then after.Move(t, DelPending) else after
    case UpLock(t) => s.Move(t, UpLocked).(lock := Held(t))
    case UpTest(t) => s.Move(t, UpSeen(s.connected))
    case UpTake(t, h) =>
      if s.At(t) == UpSeen(true) then s.Move(t, UpDone).(count := s.count + 1, handles := s.handles + {h})
      else s.Move(t, UpDone)
    case UpUnlock(t) => s.Move(t, Idle).(lock := Free)
    case DelLock(t) => s.Move(t, DelLocked).(lock := Held(t))
    case DelRead(t) => s.Move(t, if s.connected && s.count > 0 then DelKeep else DelZero)
    case DelDisconnect(t) => s.Move(t, DelDecided).(connected := false)
    case DelUnlock(t) => s.Move(t, if s.At(t) == DelKeep then Idle else Deleting).(lock := Free)
    case Delete(t) => s.Move(t, Idle).(deletes := s.deletes + 1)
  }

  predicate Start(s: State) {
    && s.handles != {} && s.count == |s.handles|
    && s.connected && s.lock == Free && s.phase == map[] && s.deletes == 0
  }

  ghost predicate Run(states: seq<State>, steps: seq<Step>) {
    && |states| == |steps| + 1
    && Start(states[0])
    && forall i | 0 <= i < |steps| :: Enabled(states[i], steps[i]) && states[i + 1] == Apply(states[i], steps[i])
  }

  predicate Locked(p: Phase) {
    p.UpLocked? || p.UpSeen? || p.UpDone? || p.DelLocked? || p.DelKeep? || p.DelZero? || p.DelDecided?
  }

  /** Threads on their way to `delete this`, unless they find the object in use again. */
  function Deleters(s: State): set<Thread> {
    set t | t in s.phase && IsDeleter(s.phase[t])
  }

  predicate IsDeleter(p: Phase) {
    p.DelPending? || p.DelLocked? || p.DelZero? || p.DelDecided? || p.Deleting?
  }

  ghost predicate Inv(s: State) {
    Counting(s) && Mutex(s) && Phases(s) && NoLeak(s)
  }

  ghost predicate Counting(s: State) {
    s.count == |s.handles| && (!s.connected ==> s.handles == {}) && (s.deletes > 0 ==> !s.connected)
  }

  ghost predicate Mutex(s: State) {
    forall t :: Locked(s.At(t)) <==> s.lock == Held(t)
  }

  ghost predicate Phases(s: State) {
    forall t :: PhaseInv(s, s.At(t))
  }

  predicate PhaseInv(s: State, p: Phase) {
    && (p.UpSeen? ==> p.connected == s.connected)
    && (p.DelKeep? ==> s.connected)
    && (p.DelZero? ==> s.handles == {})
    && (p.DelDecided? || p.Deleting? ==> !s.connected)
  }

  /** An object nobody holds is being deleted, or was. */
  ghost predicate NoLeak(s: State) {
    s.handles == {} || !s.connected ==> Deleters(s) != {} || s.deletes > 0
  }

  lemma InvStep(s: State, a: Step)
    requires Inv(s) && Enabled(s, a)
    ensures Inv(Apply(s, a))
  {
    CountingStep(s, a);
    MutexStep(s, a);
    PhasesStep(s, a);
    DeletersStep(s, a);
  }

  lemma CountingStep(s: State, a: Step)
    requires Inv(s) && Enabled(s, a)
    ensures Counting(Apply(s, a))
  {
    if a.UpTake? || a.DelDisconnect? || a.Delete? { assert PhaseInv(s, s.At(a.t)); }
  }

  lemma MutexStep(s: State, a: Step)
    requires Mutex(s) && Enabled(s, a)
    ensures Mutex(Apply(s, a))
  {
    if !a.Copy? { assert Locked(s.At(a.t)) <==> s.lock == Held(a.t); }
  }

  lemma PhasesStep(s: State, a: Step)
    requires Inv(s) && Enabled(s, a)
    ensures Phases(Apply(s, a))
  {
    var s' := Apply(s, a);
    forall t ensures PhaseInv(s', s'.At(t)) {
      assert PhaseInv(s, s.At(t));
      assert Locked(s.At(t)) <==> s.lock == Held(t);
      if !a.Copy? { assert PhaseInv(s, s.At(a.t)) && (Locked(s.At(a.t)) <==> s.lock == Held(a.t)); }
    }
  }

  /** How a step changes the set of deleters. */
  lemma DeletersStep(s: State, a: Step)
    requires Enabled(s, a)
    ensures a.Drop? && s.count <= 1 ==> Deleters(Apply(s, a)) == Deleters(s) + {a.t} && a.t !in Deleters(s)
    ensures a.DelRead? && s.connected && s.count > 0 ==> Deleters(Apply(s, a)) == Deleters(s) - {a.t} && a.t in Deleters(s)
    ensures a.Delete? ==> Deleters(Apply(s, a)) == Deleters(s) - {a.t} && a.t in Deleters(s)
    ensures !(a.Drop? && s.count <= 1) && !(a.DelRead? && s.connected && s.count > 0) && !a.Delete? ==>
              Deleters(Apply(s, a)) == Deleters(s)
  {
  }

  lemma {:induction false} InvAlways(states: seq<State>, steps: seq<Step>, i: nat)
    requires Run(states, steps) && i < |states|
    ensures Inv(states[i])
  {
    if i == 0 {
      assert forall t :: states[0].At(t) == Idle;
    } else {
      InvAlways(states, steps, i - 1);
      InvStep(states[i - 1], steps[i - 1]);
    }
  }

  // ----- safety in every interleaving -----

  /** Once the deletion is decided no `ref_ptr` holds the object, then or later. */
  lemma {:induction false} NothingHeldAfterDecision(states: seq<State>, steps: seq<Step>, i: nat, j: nat)
    requires Run(states, steps) && i <= j < |states| && !states[i].connected
    ensures !states[j].connected && states[j].handles == {}
  {
    InvAlways(states, steps, j);
    if i < j { NothingHeldAfterDecision(states, steps, i, j - 1); }
  }

  /** Every upgrade that takes place after the decision yields a null `ref_ptr`. */
  lemma LaterUpgradesYieldNull(states: seq<State>, steps: seq<Step>, i: nat, j: nat)
    requires Run(states, steps) && i <= j < |steps| && !states[i].connected
    requires steps[j].UpTake?
    ensures states[j].At(steps[j].t) == UpSeen(false)
    ensures states[j + 1].handles == {} && states[j + 1].count == 0
  {
    NothingHeldAfterDecision(states, steps, i, j);
    NothingHeldAfterDecision(states, steps, i, j + 1);
    InvAlways(states, steps, j);
    InvAlways(states, steps, j + 1);
    assert PhaseInv(states[j], states[j].At(steps[j].t));
  }

  /** An upgrade yields a handle exactly when the object is still connected, also while nobody holds it; the other
      handles stay. */
  lemma UpgradeYieldsHandleIff(states: seq<State>, steps: seq<Step>, i: nat)
    requires Run(states, steps) && i < |steps| && steps[i].UpTake?
    ensures steps[i].h in states[i + 1].handles <==> states[i].connected
    ensures states[i + 1].handles - {steps[i].h} == states[i].handles
  {
    InvAlways(states, steps, i);
    assert PhaseInv(states[i], states[i].At(steps[i].t));
  }

  /** Whoever holds a handle has every upgrade succeed: what another thread drops in the meantime cannot matter. */
  lemma UpgradeOfHeldSucceeds(states: seq<State>, steps: seq<Step>, i: nat, h: Handle)
    requires Run(states, steps) && i < |steps| && steps[i].UpTake? && h in states[i].handles
    ensures states[i + 1].handles == states[i].handles + {steps[i].h} && states[i + 1].count == states[i].count + 1
  {
    InvAlways(states, steps, i);
    UpgradeYieldsHandleIff(states, steps, i);
  }

  /** A thread that is not idle can take its next step, unless it waits for the mutex; then its owner can. */
  lemma NeverStuck(states: seq<State>, steps: seq<Step>, i: nat, t: Thread) returns (a: Step)
    requires Run(states, steps) && i < |states| && states[i].At(t) != Idle
    ensures Enabled(states[i], a) && !a.Copy? && !a.Drop? && !a.UpLock?
    ensures a.t == t || (states[i].At(t) == DelPending && states[i].lock == Held(a.t))
  {
    var s := states[i];
    InvAlways(states, steps, i);
    var owner := if s.At(t) == DelPending && s.lock.Held? then s.lock.owner else t;
    assert Locked(s.At(owner)) <==> s.lock == Held(owner);
    var free := Unheld(s.handles);
    a := match s.At(owner)
      case UpLocked => UpTest(owner)
      case UpSeen(_) => UpTake(owner, free)
      case UpDone => UpUnlock(owner)
      case DelPending => DelLock(owner)
      case DelLocked => DelRead(owner)
      case DelZero => DelDisconnect(owner)
      case Deleting => Delete(owner)
      case _ => DelUnlock(owner);
  }

  /** A handle that is not in use. */
  lemma Unheld(handles: set<Handle>) returns (h: Handle)
    ensures h !in handles
  {
    h := 0;
    var rest := handles;
    while rest != {}
      invariant rest <= handles && forall g | g in handles && g !in rest :: g < h
      decreases rest
    {
      var g :| g in rest;
      rest := rest - {g};
      if g >= h { h := g + 1; }
    }
  }

  /** A handle that is held, whether copied or upgraded, cancels every delete decision made meanwhile. */
  lemma HeldHandleCancelsDeletion(states: seq<State>, steps: seq<Step>, i: nat, h: Handle)
    requires Run(states, steps) && i < |states| && h in states[i].handles
    ensures states[i].connected && states[i].deletes == 0
    ensures forall t :: states[i].At(t) != DelZero && states[i].At(t) != DelDecided && states[i].At(t) != Deleting
    ensures i < |steps| && steps[i].DelRead? ==> states[i + 1].At(steps[i].t) == DelKeep
  {
    InvAlways(states, steps, i);
    forall t ensures PhaseInv(states[i], states[i].At(t)) {}
    assert |states[i].handles| > 0;
  }

  // ----- how often the object is deleted -----

  /** After the decision the number of deletions is settled: each thread still on its way adds one. */
  lemma {:induction false} DeletionsAreSettled(states: seq<State>, steps: seq<Step>, i: nat, j: nat)
    requires Run(states, steps) && i <= j < |states| && !states[i].connected
    ensures states[j].deletes + |Deleters(states[j])| == states[i].deletes + |Deleters(states[i])|
  {
    hide Apply, Enabled, Deleters, Inv;
    if i < j {
      DeletionsAreSettled(states, steps, i, j - 1);
      NothingHeldAfterDecision(states, steps, i, j - 1);
      InvAlways(states, steps, j - 1);
      SettledStep(states[j - 1], steps[j - 1]);
    }
  }

  lemma SettledStep(s: State, a: Step)
    requires Inv(s) && Enabled(s, a) && !s.connected
    ensures Apply(s, a).deletes + |Deleters(Apply(s, a))| == s.deletes + |Deleters(s)|
  {
    DeletersStep(s, a);
    assert !a.Drop? && (a.Delete? || Deleters(Apply(s, a)) == Deleters(s));
  }

  /** In a run that came to rest the object is deleted exactly as often as there were deleters when the
      object was first disconnected; if it was never disconnected it is still held and was not deleted. */
  lemma DeletionsAtRest(states: seq<State>, steps: seq<Step>, i: nat)
    requires Run(states, steps) && i < |steps| && states[i].connected && !states[i + 1].connected
    requires forall t :: states[|steps|].At(t) == Idle
    ensures states[|steps|].deletes == |Deleters(states[i])| > 0
  {
    var n := |steps|;
    DeletionsAreSettled(states, steps, i + 1, n);
    assert Deleters(states[n]) == {} by {
      forall t | t in states[n].phase ensures !IsDeleter(states[n].phase[t]) { assert states[n].At(t) == Idle; }
    }
    InvAlways(states, steps, i);
    DeletersStep(states[i], steps[i]);
    assert steps[i].t in Deleters(states[i]);
  }

  lemma HeldAtRest(states: seq<State>, steps: seq<Step>)
    requires Run(states, steps) && states[|steps|].connected
    requires forall t :: states[|steps|].At(t) == Idle
    ensures states[|steps|].handles != {} && states[|steps|].deletes == 0
  {
    var n := |steps|;
    InvAlways(states, steps, n);
    assert Deleters(states[n]) == {} by {
      forall t | t in states[n].phase ensures !IsDeleter(states[n].phase[t]) { assert states[n].At(t) == Idle; }
    }
  }

  /** An upgrade takes a reference while another thread is about to decide on the deletion. */
  predicate Overlaps(s: State, a: Step) {
    a.UpTake? && s.At(a.t) == UpSeen(true) && Deleters(s) != {}
  }

  ghost predicate OneDeletion(s: State) {
    && s.deletes + |Deleters(s)| <= 1
    && (s.deletes + |Deleters(s)| == 1 ==> s.handles == {})
  }

  lemma OneDeletionStep(s: State, a: Step)
    requires Inv(s) && OneDeletion(s) && Enabled(s, a) && !Overlaps(s, a)
    ensures OneDeletion(Apply(s, a))
  {
    DeletersStep(s, a);
    if a.UpTake? {
      assert PhaseInv(s, s.At(a.t));
    } else if a.Drop? {
      assert s.handles != {} && s.deletes == 0 && Deleters(s) == {};
      assert |s.handles - {a.h}| == |s.handles| - 1;
    }
  }

  /** Without such an overlap the object is deleted at most once. */
  lemma {:induction false} DeletedAtMostOnce(states: seq<State>, steps: seq<Step>, i: nat)
    requires Run(states, steps) && i < |states|
    requires forall k | 0 <= k < |steps| :: !Overlaps(states[k], steps[k])
    ensures states[i].deletes <= 1 && OneDeletion(states[i])
  {
    if i > 0 {
      DeletedAtMostOnce(states, steps, i - 1);
      InvAlways(states, steps, i - 1);
      OneDeletionStep(states[i - 1], steps[i - 1]);
    }
  }

  ghost predicate Reachable(s: State) {
    exists states, steps :: Run(states, steps) && states[|steps|] == s
  }

  lemma Next(s: State, a: Step, s': State)
    requires Reachable(s) && Enabled(s, a) && s' == Apply(s, a)
    ensures Reachable(s')
  {
    var states, steps :| Run(states, steps) && states[|steps|] == s;
    assert Run(states + [s'], steps + [a]);
    assert (states + [s'])[|steps + [a]|] == s';
  }

  /** Two threads may be pending at once: thread 0 drops the last reference, thread 1 upgrades and drops
      its own before thread 0 decides. */
  lemma TwoPending() returns (s: State)
    ensures Reachable(s) && s.At(0) == DelPending && s.At(1) == DelPending
    ensures s.count == 0 && s.lock == Free && s.deletes == 0
  {
    var s0 := State(1, {0}, true, Free, map[], 0);
    var none: seq<Step> := [];
    assert Run([s0], none) && [s0][|none|] == s0;
    var s1 := State(0, {0} - {0}, true, Free, map[][0 := DelPending], 0);
    Next(s0, Drop(0, 0), s1);
    var s2 := s1.Move(1, UpLocked).(lock := Held(1));
    Next(s1, UpLock(1), s2);
    var s3 := s2.Move(1, UpSeen(true));
    Next(s2, UpTest(1), s3);
    var s4 := s3.Move(1, UpDone).(count := 1, handles := s3.handles + {1});
    Next(s3, UpTake(1, 1), s4);
    var s5 := s4.Move(1, Idle).(lock := Free);
    Next(s4, UpUnlock(1), s5);
    s := s5.(count := 0, handles := s5.handles - {1}).Move(1, DelPending);
    Next(s5, Drop(1, 1), s);
  }

  /** A pending thread that finds no reference runs to its `delete this`. */
  lemma RunDeletion(s: State, t: Thread) returns (s': State)
    requires Reachable(s) && s.At(t) == DelPending && s.lock == Free && s.count == 0
    ensures Reachable(s') && s'.deletes == s.deletes + 1 && s'.lock == Free && s'.count == 0
    ensures forall u | u != t :: s'.At(u) == s.At(u)
  {
    hide Reachable;
    var s1 := s.Move(t, DelLocked).(lock := Held(t));
    Next(s, DelLock(t), s1);
    s' := Decide(s1, t);
  }

  lemma Decide(s: State, t: Thread) returns (s': State)
    requires Reachable(s) && s.At(t) == DelLocked && s.count == 0
    ensures Reachable(s') && s'.deletes == s.deletes + 1 && s'.lock == Free && s'.count == 0
    ensures forall u | u != t :: s'.At(u) == s.At(u)
  {
    hide Reachable;
    var s2 := s.Move(t, DelZero);
    Next(s, DelRead(t), s2);
    var s3 := s2.Move(t, DelDecided).(connected := false);
    Next(s2, DelDisconnect(t), s3);
    var s4 := s3.Move(t, Deleting).(lock := Free);
    Next(s3, DelUnlock(t), s4);
    s' := s4.Move(t, Idle).(deletes := s.deletes + 1);
    Next(s4, Delete(t), s');
  }

  /** With such an overlap the object can be deleted twice. */
  lemma OverlapCanDeleteTwice() returns (s: State)
    ensures Reachable(s) && s.deletes == 2
  {
    s := TwoPending();
    s := RunDeletion(s, 0);
    s := RunDeletion(s, 1);
  }

  /** An idle thread that finds the mutex free can run an upgrade to its end: it holds a new handle afterwards exactly
      when the object was connected, and nothing else has changed. */
  lemma UpgradeCompletes(s: State, t: Thread, h: Handle) returns (s': State)
    requires Reachable(s) && s.At(t) == Idle && s.lock == Free && h !in s.handles
    ensures Reachable(s') && s'.lock == Free && s'.connected == s.connected && s'.deletes == s.deletes
    ensures s'.handles == if s.connected then s.handles + {h} else s.handles
    ensures forall u :: s'.At(u) == s.At(u)
  {
    hide Reachable;
    var s1 := s.Move(t, UpLocked).(lock := Held(t));
    Next(s, UpLock(t), s1);
    var s2 := s1.Move(t, UpSeen(s.connected));
    Next(s1, UpTest(t), s2);
    var s3 := Apply(s2, UpTake(t, h));
    Next(s2, UpTake(t, h), s3);
    s' := s3.Move(t, Idle).(lock := Free);
    Next(s3, UpUnlock(t), s');
  }

  /** Handles are copied at any time, also while a thread has the mutex. */
  lemma CopyAnyTime(s: State, src: Handle, dst: Handle)
    requires Reachable(s) && src in s.handles && dst !in s.handles
    ensures Reachable(s.(count := s.count + 1, handles := s.handles + {dst}))
  {
    Next(s, Copy(src, dst), Apply(s, Copy(src, dst)));
  }

  /** So are they dropped; the thread that drops the last one goes on to the delete decision, and no other. */
  lemma DropAnyTime(s: State, t: Thread, h: Handle) returns (s': State)
    requires Reachable(s) && s.At(t) == Idle && h in s.handles
    ensures Reachable(s') && s'.handles == s.handles - {h} && s'.lock == s.lock && s'.connected == s.connected
    ensures s'.At(t) == if s.handles == {h} then DelPending else Idle
    ensures forall u | u != t :: s'.At(u) == s.At(u)
  {
    var states, steps :| Run(states, steps) && states[|steps|] == s;
    InvAlways(states, steps, |steps|);
    hide Reachable;
    s' := Apply(s, Drop(t, h));
    Next(s, Drop(t, h), s');
    assert |s.handles - {h}| == |s.handles| - 1;
    assert s.handles == (s.handles - {h}) + {h};
  }
}
