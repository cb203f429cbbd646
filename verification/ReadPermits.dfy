/** Two read permits shared by nested workers, as steps at lock granularity. */
module ReadPermits {
  import opened Results

  const SLOTS := 2

  type ThreadId = nat
  type LeaseId = nat
  type HandleId = nat

  /** The thread-local part: `lease` outlives `held`. */
  datatype Thread = Thread(held: bool, lease: Option<LeaseId>, nested: nat)

  /** `references` is the code's counter; who is counted, and how often the slot came back, is
      recorded beside it. */
  datatype Lease = Lease(references: int, parent: Option<ThreadId>, borrowers: set<HandleId>, returned: nat)

  /** `overReleased` is set when the bounded semaphore refuses a release. */
  datatype Pool = Pool(free: int, overReleased: bool, direct: nat, threads: map<ThreadId, Thread>,
                       leases: map<LeaseId, Lease>, handles: map<HandleId, LeaseId>)

  function Empty(): Pool { Pool(SLOTS, false, 0, map[], map[], map[]) }

  function ThreadOf(p: Pool, t: ThreadId): Thread {
    if t in p.threads then p.threads[t] else Thread(false, None, 0)
  }

  function Release(p: Pool): Pool {
    if p.free < SLOTS then p.(free := p.free + 1) else p.(overReleased := true)
  }

  /** One reference of a lease goes; the last one returns the slot. */
  function Drop(p: Pool, id: LeaseId, after: Lease): Pool
    requires id in p.leases
  {
    if after.references == 0
    then Release(p.(leases := p.leases[id := after.(returned := after.returned + 1)]))
    else p.(leases := p.leases[id := after])
  }

  datatype Step = Acquire
                | ReleaseDirect
                | Enter(thread: ThreadId, lease: LeaseId)
                | Exit(thread: ThreadId)
                | Borrow(thread: ThreadId, handle: HandleId)
                | Return(handle: HandleId)

  /** What the callers guarantee: lease and handle names are new, contexts and handles are closed
      once, a slot acquired directly is released once. A thread waits until a slot is free. */
  predicate Enabled(p: Pool, step: Step) {
    match step
    case Acquire => 0 < p.free
    case ReleaseDirect => 0 < p.direct
    case Enter(t, id) => ThreadOf(p, t).held || (0 < p.free && id !in p.leases)
    case Exit(t) => 0 < ThreadOf(p, t).nested
                    || (ThreadOf(p, t).held && ThreadOf(p, t).lease.Some? && ThreadOf(p, t).lease.value in p.leases)
    case Borrow(t, h) => ThreadOf(p, t).lease.Some? && ThreadOf(p, t).lease.value in p.leases && h !in p.handles
                         && h !in p.leases[ThreadOf(p, t).lease.value].borrowers
    case Return(h) => h in p.handles && p.handles[h] in p.leases
  }

  function Apply(p: Pool, step: Step): Pool
    requires Enabled(p, step)
  {
    match step
    case Acquire => p.(free := p.free - 1, direct := p.direct + 1)
    case ReleaseDirect => Release(p.(direct := p.direct - 1))
    case Enter(t, id) =>
      var thread := ThreadOf(p, t);
      if thread.held then p.(threads := p.threads[t := thread.(nested := thread.nested + 1)])
      else p.(free := p.free - 1,
              threads := p.threads[t := Thread(true, Some(id), thread.nested)],
              leases := p.leases[id := Lease(1, Some(t), {}, 0)])
    case Exit(t) =>
      var thread := ThreadOf(p, t);
      if 0 < thread.nested then p.(threads := p.threads[t := thread.(nested := thread.nested - 1)])
      else
        var lease := p.leases[thread.lease.value];
        Drop(p.(threads := p.threads[t := thread.(held := false)]), thread.lease.value,
             lease.(references := lease.references - 1, parent := None))
    case Borrow(t, h) =>
      var id := ThreadOf(p, t).lease.value;
      var lease := p.leases[id];
      p.(leases := p.leases[id := lease.(references := lease.references + 1, borrowers := lease.borrowers + {h})],
         handles := p.handles[h := id])
    case Return(h) =>
      var id := p.handles[h];
      var lease := p.leases[id];
      Drop(p.(handles := p.handles - {h}), id,
           lease.(references := lease.references - 1, borrowers := lease.borrowers - {h}))
  }

  ghost predicate Possible(p: Pool, steps: seq<Step>)
    decreases |steps|, 0
  {
    steps != [] ==> Possible(p, steps[..|steps| - 1]) && Enabled(Run(p, steps[..|steps| - 1]), steps[|steps| - 1])
  }

  ghost function Run(p: Pool, steps: seq<Step>): Pool
    requires Possible(p, steps)
    decreases |steps|, 1
  {
    if steps == [] then p else Apply(Run(p, steps[..|steps| - 1]), steps[|steps| - 1])
  }

  // ----- the invariant

  ghost function Live(p: Pool): set<LeaseId> {
    set id | id in p.leases && p.leases[id].references > 0
  }

  /** The counter counts the parent and the borrowers; the slot is back exactly when it is zero. */
  predicate Counted(lease: Lease) {
    && lease.references == (if lease.parent.Some? then 1 else 0) + |lease.borrowers|
    && lease.returned == if lease.references == 0 then 1 else 0
  }

  /** A held thread is the parent of its lease. */
  ghost predicate Threaded(threads: map<ThreadId, Thread>, leases: map<LeaseId, Lease>) {
    && (forall t | t in threads && threads[t].held ::
          threads[t].lease.Some? && threads[t].lease.value in leases
            && leases[threads[t].lease.value].parent == Some(t))
    && (forall t | t in threads && !threads[t].held :: threads[t].nested == 0)
  }

  /** A handle is out exactly when its lease counts it as a borrower. */
  ghost predicate Handled(handles: map<HandleId, LeaseId>, leases: map<LeaseId, Lease>) {
    && (forall h | h in handles :: handles[h] in leases && h in leases[handles[h]].borrowers)
    && (forall id, h | id in leases && h in leases[id].borrowers :: h in handles && handles[h] == id)
  }

  ghost predicate AllCounted(leases: map<LeaseId, Lease>) {
    forall id | id in leases :: Counted(leases[id])
  }

  /** Every taken slot is held by a live lease or by a direct acquire. */
  ghost predicate Balanced(p: Pool) {
    !p.overReleased && 0 <= p.free && p.free + p.direct + |Live(p)| == SLOTS
  }

  ghost predicate Sound(p: Pool) {
    Balanced(p) && AllCounted(p.leases) && Threaded(p.threads, p.leases) && Handled(p.handles, p.leases)
  }

  /** A borrow is made from a live lease; other steps need nothing more. */
  predicate Disciplined(p: Pool, step: Step)
    requires Enabled(p, step)
  {
    step.Borrow? ==> p.leases[ThreadOf(p, step.thread).lease.value].references > 0
  }

  lemma {:induction false} LiveWritten(p: Pool, id: LeaseId, lease: Lease, after: Pool)
    requires after.leases == p.leases[id := lease]
    ensures Live(after) == if lease.references > 0 then Live(p) + {id} else Live(p) - {id}
    ensures |Live(after)| == |Live(p)| + (if lease.references > 0 then 1 else 0) - if id in Live(p) then 1 else 0
  {
    var live := Live(p);
    assert Live(after) == if lease.references > 0 then live + {id} else live - {id};
    if id in live { assert live + {id} == live; }
  }

  lemma {:induction false} CountedParent(lease: Lease)
    requires Counted(lease) && lease.parent.Some?
    ensures lease.references > 0 && lease.returned == 0
    ensures Counted(Dropped(lease.(references := lease.references - 1, parent := None)))
  {
  }

  lemma {:induction false} CountedBorrower(lease: Lease, h: HandleId)
    requires Counted(lease) && h in lease.borrowers
    ensures lease.references > 0 && lease.returned == 0
    ensures Counted(Dropped(lease.(references := lease.references - 1, borrowers := lease.borrowers - {h})))
  {
  }

  lemma {:induction false} CountedBorrow(lease: Lease, h: HandleId)
    requires Counted(lease) && h !in lease.borrowers && lease.references > 0
    ensures Counted(lease.(references := lease.references + 1, borrowers := lease.borrowers + {h}))
  {
  }

  function Dropped(after: Lease): Lease {
    if after.references == 0 then after.(returned := after.returned + 1) else after
  }

  /** Dropping a reference of a live lease keeps the slots balanced and cannot over-release. */
  lemma {:induction false} DropBalanced(p: Pool, id: LeaseId, after: Lease)
    requires id in p.leases && p.leases[id].references > 0 && after.references == p.leases[id].references - 1
    requires Balanced(p)
    ensures Balanced(Drop(p, id, after))
    ensures Drop(p, id, after) == p.(free := Drop(p, id, after).free, leases := p.leases[id := Dropped(after)])
  {
    assert id in Live(p);
    LiveWritten(p, id, Dropped(after), Drop(p, id, after));
  }

  lemma {:induction false} LiveSame(p: Pool, q: Pool)
    requires Balanced(p) && q.leases == p.leases && q.free + q.direct == p.free + p.direct && 0 <= q.free
             && !q.overReleased
    ensures Balanced(q)
  {
    assert Live(q) == Live(p);
  }

  lemma {:induction false} WriteCounted(leases: map<LeaseId, Lease>, id: LeaseId, lease: Lease)
    requires AllCounted(leases) && Counted(lease)
    ensures AllCounted(leases[id := lease])
  {
    hide Counted;
  }

  /** Writing a lease that keeps its parent disturbs no thread. */
  lemma {:induction false} ParentKept(threads: map<ThreadId, Thread>, leases: map<LeaseId, Lease>, id: LeaseId,
                                      lease: Lease)
    requires Threaded(threads, leases) && id in leases && lease.parent == leases[id].parent
    ensures Threaded(threads, leases[id := lease])
  {
  }

  /** Writing a lease that keeps its borrowers disturbs no handle. */
  lemma {:induction false} BorrowersKept(handles: map<HandleId, LeaseId>, leases: map<LeaseId, Lease>, id: LeaseId,
                                         lease: Lease)
    requires Handled(handles, leases) && lease.borrowers == if id in leases then leases[id].borrowers else {}
    ensures Handled(handles, leases[id := lease])
  {
  }

  lemma {:induction false} ExitThreaded(threads: map<ThreadId, Thread>, leases: map<LeaseId, Lease>, t: ThreadId,
                                        id: LeaseId, lease: Lease)
    requires Threaded(threads, leases) && t in threads && threads[t].held && threads[t].lease == Some(id)
             && threads[t].nested == 0
    ensures id in leases && leases[id].parent == Some(t)
    ensures Threaded(threads[t := threads[t].(held := false)], leases[id := lease])
  {
  }

  lemma {:induction false} DroppedParts(after: Lease)
    ensures Dropped(after).parent == after.parent && Dropped(after).borrowers == after.borrowers
  {
  }

  lemma {:induction false} ExitKeepsSound(p: Pool, t: ThreadId)
    requires Sound(p) && Enabled(p, Exit(t))
    ensures Sound(Apply(p, Exit(t)))
  {
    hide Balanced, AllCounted, Handled, Live, Dropped;
    var thread := ThreadOf(p, t);
    if 0 < thread.nested {
      BalancedParts(p);
      LiveSame(p, Apply(p, Exit(t)));
      hide Counted;
    } else {
      var id := thread.lease.value;
      var q := p.(threads := p.threads[t := thread.(held := false)]);
      var after := p.leases[id].(references := p.leases[id].references - 1, parent := None);
      ExitThreaded(p.threads, p.leases, t, id, Dropped(after));
      hide Threaded;
      IsCounted(p.leases, id);
      CountedParent(p.leases[id]);
      LiveSame(p, q) by { BalancedParts(p); }
      DropBalanced(q, id, after);
      DroppedParts(after);
      WriteCounted(p.leases, id, Dropped(after));
      BorrowersKept(p.handles, p.leases, id, Dropped(after));
    }
  }

  lemma {:induction false} IsCounted(leases: map<LeaseId, Lease>, id: LeaseId)
    requires AllCounted(leases) && id in leases
    ensures Counted(leases[id])
  {
  }

  lemma {:induction false} BalancedParts(p: Pool)
    requires Balanced(p)
    ensures !p.overReleased && 0 <= p.free
  {
  }

  lemma {:induction false} ReturnHandled(handles: map<HandleId, LeaseId>, leases: map<LeaseId, Lease>, h: HandleId,
                                         lease: Lease)
    requires Handled(handles, leases) && h in handles
    requires handles[h] in leases ==> lease.borrowers == leases[handles[h]].borrowers - {h}
    ensures handles[h] in leases && h in leases[handles[h]].borrowers
    ensures Handled(handles - {h}, leases[handles[h] := lease])
  {
  }

  lemma {:induction false} ReturnKeepsSound(p: Pool, h: HandleId)
    requires Sound(p) && Enabled(p, Return(h))
    ensures Sound(Apply(p, Return(h)))
  {
    hide Balanced, AllCounted, Handled, Threaded, Live, Dropped, Counted;
    var id := p.handles[h];
    var q := p.(handles := p.handles - {h});
    var after := p.leases[id].(references := p.leases[id].references - 1, borrowers := p.leases[id].borrowers - {h});
    DroppedParts(after);
    ReturnHandled(p.handles, p.leases, h, Dropped(after));
    IsCounted(p.leases, id);
    CountedBorrower(p.leases[id], h);
    LiveSame(p, q) by { BalancedParts(p); }
    DropBalanced(q, id, after);
    WriteCounted(p.leases, id, Dropped(after));
    ParentKept(p.threads, p.leases, id, Dropped(after));
  }

  lemma {:induction false} BorrowHandled(handles: map<HandleId, LeaseId>, leases: map<LeaseId, Lease>, h: HandleId,
                                         id: LeaseId, lease: Lease)
    requires Handled(handles, leases) && h !in handles && id in leases && lease.borrowers == leases[id].borrowers + {h}
    ensures Handled(handles[h := id], leases[id := lease])
  {
  }

  lemma {:induction false} BorrowKeepsSound(p: Pool, t: ThreadId, h: HandleId)
    requires Sound(p) && Enabled(p, Borrow(t, h)) && Disciplined(p, Borrow(t, h))
    ensures Sound(Apply(p, Borrow(t, h)))
  {
    var id := ThreadOf(p, t).lease.value;
    var lease := p.leases[id].(references := p.leases[id].references + 1, borrowers := p.leases[id].borrowers + {h});
    CountedBorrow(p.leases[id], h);
    LiveWritten(p, id, lease, Apply(p, Borrow(t, h)));
    assert id in Live(p);
    hide AllCounted, Handled, Threaded, Live, Counted;
    BorrowHandled(p.handles, p.leases, h, id, lease);
    WriteCounted(p.leases, id, lease);
    ParentKept(p.threads, p.leases, id, lease);
  }

  lemma {:induction false} EnterThreaded(threads: map<ThreadId, Thread>, leases: map<LeaseId, Lease>, t: ThreadId,
                                         id: LeaseId, nested: nat)
    requires Threaded(threads, leases) && id !in leases
    ensures Threaded(threads[t := Thread(true, Some(id), nested)], leases[id := Lease(1, Some(t), {}, 0)])
  {
  }

  lemma {:induction false} EnterKeepsSound(p: Pool, t: ThreadId, id: LeaseId)
    requires Sound(p) && Enabled(p, Enter(t, id))
    ensures Sound(Apply(p, Enter(t, id)))
  {
    hide AllCounted, Handled, Counted, Live, Balanced;
    if ThreadOf(p, t).held {
      BalancedParts(p);
      LiveSame(p, Apply(p, Enter(t, id)));
    } else {
      hide Threaded;
      var lease := Lease(1, Some(t), {}, 0);
      NewLease(p, id, lease, Apply(p, Enter(t, id)));
      EnterThreaded(p.threads, p.leases, t, id, ThreadOf(p, t).nested);
      WriteCounted(p.leases, id, lease);
      BorrowersKept(p.handles, p.leases, id, lease);
    }
  }

  lemma {:induction false} NewLease(p: Pool, id: LeaseId, lease: Lease, q: Pool)
    requires Balanced(p) && id !in p.leases && 0 < p.free && lease.references == 1 && lease.borrowers == {}
             && lease.parent.Some?
    requires q.leases == p.leases[id := lease] && q.free == p.free - 1 && q.direct == p.direct
             && q.overReleased == p.overReleased
    ensures Balanced(q)
    ensures lease.returned == 0 ==> Counted(lease)
  {
    LiveWritten(p, id, lease, q);
    assert id !in Live(p);
    hide Live;
  }

  lemma {:induction false} DirectKeepsSound(p: Pool, step: Step)
    requires Sound(p) && Enabled(p, step) && (step.Acquire? || step.ReleaseDirect?)
    ensures Sound(Apply(p, step))
  {
    assert Live(Apply(p, step)) == Live(p);
    hide AllCounted, Handled, Threaded, Counted;
  }

  lemma {:induction false} StepKeepsSound(p: Pool, step: Step)
    requires Sound(p) && Enabled(p, step) && Disciplined(p, step)
    ensures Sound(Apply(p, step))
  {
    hide Sound, Apply;
    match step
    case Acquire => DirectKeepsSound(p, step);
    case ReleaseDirect => DirectKeepsSound(p, step);
    case Enter(t, id) => EnterKeepsSound(p, t, id);
    case Exit(t) => ExitKeepsSound(p, t);
    case Borrow(t, h) => BorrowKeepsSound(p, t, h);
    case Return(h) => ReturnKeepsSound(p, h);
  }

  // ----- every run

  ghost predicate DisciplinedRun(p: Pool, steps: seq<Step>)
    requires Possible(p, steps)
  {
    steps != [] ==>
      && DisciplinedRun(p, steps[..|steps| - 1])
      && Disciplined(Run(p, steps[..|steps| - 1]), steps[|steps| - 1])
  }

  /** The references that are still out: a parent inside its context, or a handle not yet returned. */
  predicate InUse(lease: Lease) { lease.parent.Some? || lease.borrowers != {} }

  lemma {:induction false} RunIsSound(steps: seq<Step>)
    requires Possible(Empty(), steps) && DisciplinedRun(Empty(), steps)
    ensures Sound(Run(Empty(), steps))
  {
    if steps == [] {
      EmptyIsSound();
    } else {
      hide Sound, Apply, Disciplined, Enabled;
      RunIsSound(steps[..|steps| - 1]);
      StepKeepsSound(Run(Empty(), steps[..|steps| - 1]), steps[|steps| - 1]);
    }
  }

  /** In every interleaving at most two slots are held, a lease holds its slot exactly as long as
      its parent or a borrower uses it and gives it back exactly once, and the bounded semaphore is
      never released too often. */
  lemma {:induction false} PermitsAreBounded(steps: seq<Step>)
    requires Possible(Empty(), steps) && DisciplinedRun(Empty(), steps)
    ensures var p := Run(Empty(), steps);
            && !p.overReleased
            && 0 <= p.free
            && p.direct + |Live(p)| == SLOTS - p.free <= SLOTS
            && (forall id | id in p.leases :: id in Live(p) <==> InUse(p.leases[id]))
            && (forall id | id in p.leases :: p.leases[id].returned == if InUse(p.leases[id]) then 0 else 1)
  {
    RunIsSound(steps);
    hide Run, Possible, Threaded, Handled;
    var p := Run(Empty(), steps);
    forall id | id in p.leases
      ensures p.leases[id].references > 0 <==> InUse(p.leases[id])
    {
      assert Counted(p.leases[id]);
      if p.leases[id].borrowers != {} { NonEmptySize(p.leases[id].borrowers); }
    }
  }

  lemma {:induction false} NonEmptySize(handles: set<HandleId>)
    requires handles != {}
    ensures |handles| > 0
  {
    var h :| h in handles;
    assert |handles - {h}| == |handles| - 1;
  }

  /** A thread inside its own lease always borrows from a live one: the guard the callers use is
      enough for the discipline. */
  lemma {:induction false} HeldIsLive(p: Pool, t: ThreadId, h: HandleId)
    requires Sound(p) && ThreadOf(p, t).held && Enabled(p, Borrow(t, h))
    ensures Disciplined(p, Borrow(t, h))
  {
    IsCounted(p.leases, ThreadOf(p, t).lease.value);
    CountedParent(p.leases[ThreadOf(p, t).lease.value]);
  }

  /** A nested lease on the same thread changes no slot and no lease, and its exit undoes it. */
  lemma {:induction false} NestedTakesNoSlot(p: Pool, t: ThreadId, id: LeaseId)
    requires Sound(p) && ThreadOf(p, t).held
    ensures Enabled(p, Enter(t, id))
    ensures var inside := Apply(p, Enter(t, id));
            && inside.(threads := p.threads) == p
            && Enabled(inside, Exit(t)) && Apply(inside, Exit(t)) == p
  {
    var inside := Apply(p, Enter(t, id));
    assert inside.threads[t := p.threads[t]] == p.threads;
  }

  // ----- without the discipline

  /** Borrowing from a lease whose slot is already back returns that slot a second time. */
  lemma {:induction false} DeadBorrowReturnsTwice(p: Pool, t: ThreadId, h: HandleId)
    requires Sound(p) && Enabled(p, Borrow(t, h)) && !Disciplined(p, Borrow(t, h))
    ensures var id := ThreadOf(p, t).lease.value;
            var borrowed := Apply(p, Borrow(t, h));
            && p.leases[id].returned == 1
            && Enabled(borrowed, Return(h))
            && Apply(borrowed, Return(h)).leases[id].returned == 2
            && (p.free == SLOTS ==> Apply(borrowed, Return(h)).overReleased)
            && (p.free < SLOTS ==> Apply(borrowed, Return(h)).free == p.free + 1)
  {
    hide Threaded, Handled, Live;
    IsCounted(p.leases, ThreadOf(p, t).lease.value);
  }

  /** Every lease has given its slot back once if nobody uses it any more, and not yet otherwise. */
  ghost predicate KeepsSlots(p: Pool) {
    forall id | id in p.leases :: p.leases[id].returned == if InUse(p.leases[id]) then 0 else 1
  }

  lemma {:induction false} PrefixPossible(steps: seq<Step>, k: nat)
    requires Possible(Empty(), steps) && k <= |steps|
    ensures Possible(Empty(), steps[..k])
    decreases |steps|
  {
    if k == |steps| {
      assert steps[..k] == steps;
    } else {
      PrefixPossible(steps[..|steps| - 1], k);
      assert steps[..|steps| - 1][..k] == steps[..k];
    }
  }

  /** A dead borrow leaves a lease in use whose slot is back. */
  lemma {:induction false} DeadBorrowBreaks(p: Pool, step: Step)
    requires Sound(p) && Enabled(p, step) && !Disciplined(p, step)
    ensures !KeepsSlots(Apply(p, step))
  {
    hide Threaded, Handled, Balanced;
    var id := ThreadOf(p, step.thread).lease.value;
    IsCounted(p.leases, id);
    assert step.handle in Apply(p, step).leases[id].borrowers;
  }

  lemma {:induction false} DisciplineKeepsSlots(steps: seq<Step>)
    requires Possible(Empty(), steps) && DisciplinedRun(Empty(), steps)
    ensures KeepsSlots(Run(Empty(), steps))
  {
    PermitsAreBounded(steps);
    hide Run, Possible, DisciplinedRun, Live;
  }

  /** Exactly what callers have to keep: over every run, each lease gives its slot back once, when its
      last user leaves, at every moment of the run if and only if every borrow was from a live lease. */
  lemma {:induction false} SlotsReturnOnceExactly(steps: seq<Step>)
    requires Possible(Empty(), steps)
    ensures forall k: nat | k <= |steps| :: Possible(Empty(), steps[..k])
    ensures DisciplinedRun(Empty(), steps) <==> forall k: nat | k <= |steps| :: KeepsSlots(Run(Empty(), steps[..k]))
  {
    hide KeepsSlots, Sound, Enabled, Disciplined, Apply;
    forall k: nat | k <= |steps| ensures Possible(Empty(), steps[..k]) { PrefixPossible(steps, k); }
    var n := |steps|;
    assert steps[..n] == steps;
    if n == 0 {
      DisciplineKeepsSlots(steps);
    } else {
      var before := steps[..n - 1];
      SlotsReturnOnceExactly(before);
      forall k: nat | k < n ensures before[..k] == steps[..k] { }
      if DisciplinedRun(Empty(), steps) {
        DisciplineKeepsSlots(steps);
      } else if DisciplinedRun(Empty(), before) {
        RunIsSound(before);
        DeadBorrowBreaks(Run(Empty(), before), steps[n - 1]);
      }
    }
  }

  /** It can happen: the thread-local lease is still set after its context ended, so one stale
      borrow makes the semaphore refuse a release. */
  lemma {:induction false} StaleLeaseCanBeBorrowed()
    ensures Enabled(Empty(), Enter(0, 0)) && Enabled(Apply(Empty(), Enter(0, 0)), Exit(0))
    ensures var ended := Apply(Apply(Empty(), Enter(0, 0)), Exit(0));
            && Enabled(ended, Borrow(0, 0))
            && Enabled(Apply(ended, Borrow(0, 0)), Return(0))
            && Apply(Apply(ended, Borrow(0, 0)), Return(0)).overReleased
  {
    EmptyIsSound();
    EndedContext(Empty(), 0, 0);
    hide Sound, Enabled, Apply, Disciplined, Live;
    DeadBorrowReturnsTwice(Apply(Apply(Empty(), Enter(0, 0)), Exit(0)), 0, 0);
  }

  lemma {:induction false} EmptyIsSound()
    ensures Sound(Empty())
  {
    assert Live(Empty()) == {};
  }

  lemma {:induction false} EndedContext(p: Pool, t: ThreadId, id: LeaseId)
    requires Sound(p) && !ThreadOf(p, t).held && 0 < p.free && id !in p.leases && ThreadOf(p, t).nested == 0
    ensures Enabled(p, Enter(t, id)) && Enabled(Apply(p, Enter(t, id)), Exit(t))
    ensures var q := Apply(Apply(p, Enter(t, id)), Exit(t));
            && Sound(q) && q.free == p.free && q.handles == p.handles
            && ThreadOf(q, t) == Thread(false, Some(id), 0)
            && id in q.leases && q.leases[id] == Lease(0, None, {}, 1)
            && (forall h | h !in q.handles :: Enabled(q, Borrow(t, h)) && !Disciplined(q, Borrow(t, h)))
  {
    EnterKeepsSound(p, t, id);
    ExitKeepsSound(Apply(p, Enter(t, id)), t);
    hide Sound, Balanced;
    BalancedBound(p);
  }

  lemma {:induction false} BalancedBound(p: Pool)
    requires Sound(p)
    ensures p.free <= SLOTS
  {
    hide Live, AllCounted, Threaded, Handled;
  }
}
