/** The scope that waits for every blocking call before its workspace is released: each call is an
    owner and a worker that follow the source's control flow, and three places give a reservation back. */
module BlockingScope {

  type Job = nat

  /** The thread that made the reservation. In `run_blocking` it is about to submit, has failed to, or
      waits for the result; in `call` it runs the function itself and then leaves it. */
  datatype Owner = Submitting | Failed | Waiting | Calling | Returned | Left

  /** The pool's thread: not there yet, queued, running the function, behind it, over. */
  datatype Worker = Absent | Queued | Running | Leaving | Done

  datatype Task = Task(owner: Owner, worker: Worker, releases: nat)

  datatype Scope = Scope(pending: int, closed: bool, tasks: map<Job, Task>)

  function Open(): Scope { Scope(0, false, map[]) }

  /** One thread's next step. The owner may stop waiting at any time, for a result, a cancellation or a
      deadline; queued work of a scope is never taken out of the queue. */
  datatype Move = Submit | SubmitFails | ReleaseAfterFailure | StopWaiting
                | FunctionReturns | ReleaseAfterCall
                | Start | Finish | ReleaseInWorker

  datatype Step = Reserve(job: Job) | ReserveCall(job: Job) | Thread(job: Job, move: Move) | Close

  predicate CanMove(t: Task, move: Move) {
    match move
    case Submit => t.owner.Submitting?
    case SubmitFails => t.owner.Submitting?
    case ReleaseAfterFailure => t.owner.Failed?
    case StopWaiting => t.owner.Waiting?
    case FunctionReturns => t.owner.Calling?
    case ReleaseAfterCall => t.owner.Returned?
    case Start => t.worker.Queued?
    case Finish => t.worker.Running?
    case ReleaseInWorker => t.worker.Leaving?
  }

  predicate Releases(move: Move) { move.ReleaseAfterFailure? || move.ReleaseAfterCall? || move.ReleaseInWorker? }

  function Moved(t: Task, move: Move): Task {
    match move
    case Submit => t.(owner := Waiting, worker := Queued)
    case SubmitFails => t.(owner := Failed)
    case ReleaseAfterFailure => t.(owner := Left, releases := t.releases + 1)
    case StopWaiting => t.(owner := Left)
    case FunctionReturns => t.(owner := Returned)
    case ReleaseAfterCall => t.(owner := Left, releases := t.releases + 1)
    case Start => t.(worker := Running)
    case Finish => t.(worker := Leaving)
    case ReleaseInWorker => t.(worker := Done, releases := t.releases + 1)
  }

  /** A closed scope refuses reservations; it closes only under its lock when nothing is pending. */
  predicate Enabled(s: Scope, step: Step) {
    match step
    case Reserve(job) => !s.closed && job !in s.tasks
    case ReserveCall(job) => !s.closed && job !in s.tasks
    case Thread(job, move) => job in s.tasks && CanMove(s.tasks[job], move)
    case Close => s.pending == 0
  }

  function Apply(s: Scope, step: Step): Scope {
    match step
    case Reserve(job) => s.(pending := s.pending + 1, tasks := s.tasks[job := Task(Submitting, Absent, 0)])
    case ReserveCall(job) => s.(pending := s.pending + 1, tasks := s.tasks[job := Task(Calling, Absent, 0)])
    case Thread(job, move) =>
      if job !in s.tasks then s
      else s.(pending := s.pending - if Releases(move) then 1 else 0,
              tasks := s.tasks[job := Moved(s.tasks[job], move)])
    case Close => s.(closed := true)
  }

  ghost function Run(steps: seq<Step>): Scope
    decreases |steps|
  {
    if steps == [] then Open() else Apply(Run(steps[..|steps| - 1]), steps[|steps| - 1])
  }

  ghost predicate Possible(steps: seq<Step>)
    decreases |steps|
  {
    steps != [] ==> Possible(steps[..|steps| - 1]) && Enabled(Run(steps[..|steps| - 1]), steps[|steps| - 1])
  }

  // ----- what every interleaving keeps

  /** The function of the call may still begin or is running. */
  predicate Active(t: Task) {
    t.owner.Submitting? || t.owner.Calling? || t.worker.Queued? || t.worker.Running?
  }

  /** Some thread still has to give the reservation back. */
  predicate Holding(t: Task) {
    Active(t) || t.owner.Failed? || t.owner.Returned? || t.worker.Leaving?
  }

  /** A worker exists only behind an owner that waits or has left, and a reservation is given back
      exactly when no thread has to do so any more. */
  predicate Consistent(t: Task) {
    && (t.owner.Waiting? ==> !t.worker.Absent?)
    && (!t.owner.Waiting? && !t.owner.Left? ==> t.worker.Absent?)
    && t.releases == if Holding(t) then 0 else 1
  }

  ghost function Held(s: Scope): set<Job> {
    set job | job in s.tasks && Holding(s.tasks[job])
  }

  ghost predicate Sound(s: Scope) {
    && s.pending == |Held(s)|
    && (s.closed ==> Held(s) == {})
    && forall job | job in s.tasks :: Consistent(s.tasks[job])
  }

  lemma {:induction false} MoveKeepsConsistent(t: Task, move: Move)
    requires Consistent(t) && CanMove(t, move)
    ensures Consistent(Moved(t, move))
    ensures Holding(t) == (Holding(Moved(t, move)) || Releases(move))
    ensures Holding(Moved(t, move)) ==> !Releases(move)
  {
  }

  lemma {:induction false} Admitted(s: Scope, job: Job, t: Task)
    requires Sound(s) && job !in s.tasks && !s.closed && Consistent(t) && Holding(t)
    ensures Sound(s.(pending := s.pending + 1, tasks := s.tasks[job := t]))
  {
    hide *;
    var r := s.(pending := s.pending + 1, tasks := s.tasks[job := t]);
    SoundParts(s);
    HeldMore(s, job, t);
    assert Held(r) == Held(s) + {job};
    IsSound(r);
  }

  lemma {:induction false} HeldMore(s: Scope, job: Job, t: Task)
    requires job !in s.tasks && Holding(t)
    ensures job !in Held(s)
    ensures Held(s.(pending := s.pending + 1, tasks := s.tasks[job := t])) == Held(s) + {job}
  {
    hide Holding;
  }

  lemma {:induction false} SoundParts(s: Scope)
    requires Sound(s)
    ensures s.pending == |Held(s)| && (s.closed ==> Held(s) == {})
    ensures forall job | job in s.tasks :: Consistent(s.tasks[job])
  {
    hide Held, Consistent;
  }

  lemma {:induction false} IsSound(s: Scope)
    requires s.pending == |Held(s)| && (s.closed ==> Held(s) == {})
    requires forall job | job in s.tasks :: Consistent(s.tasks[job])
    ensures Sound(s)
  {
    hide Held, Consistent;
  }

  lemma {:induction false} ThreadKeepsSound(s: Scope, job: Job, move: Move)
    requires Sound(s) && Enabled(s, Thread(job, move))
    ensures Sound(Apply(s, Thread(job, move)))
  {
    var r := Apply(s, Thread(job, move));
    MoveKeepsConsistent(s.tasks[job], move);
    hide Consistent, Holding, CanMove, Moved, Releases;
    assert Held(r) == if Releases(move) then Held(s) - {job} else Held(s);
    assert Releases(move) ==> job in Held(s);
  }

  lemma {:induction false} StepKeepsSound(s: Scope, step: Step)
    requires Sound(s) && Enabled(s, step)
    ensures Sound(Apply(s, step))
  {
    match step
    case Reserve(job) => Admitted(s, job, Task(Submitting, Absent, 0));
    case ReserveCall(job) => Admitted(s, job, Task(Calling, Absent, 0));
    case Thread(job, move) => ThreadKeepsSound(s, job, move);
    case Close => NoneHeld(s);
  }

  lemma {:induction false} NoneHeld(s: Scope)
    requires Sound(s) && s.pending == 0
    ensures Held(s) == {} && Sound(s.(closed := true))
  {
    assert Held(s.(closed := true)) == Held(s);
  }

  lemma {:induction false} RunIsSound(steps: seq<Step>)
    requires Possible(steps)
    ensures Sound(Run(steps))
  {
    if steps == [] {
      assert Held(Open()) == {};
    } else {
      hide Sound, Apply, Enabled;
      RunIsSound(steps[..|steps| - 1]);
      StepKeepsSound(Run(steps[..|steps| - 1]), steps[|steps| - 1]);
    }
  }

  /** In every interleaving of owners and workers, `pending` counts the reservations some thread still
      has to give back; each is given back at most once, and only when its function can neither begin
      nor go on; and a closed scope admits nothing and has nothing outstanding. */
  lemma {:induction false} ClosedMeansDrained(steps: seq<Step>, job: Job)
    requires Possible(steps)
    ensures var s := Run(steps);
            && s.pending == |Held(s)|
            && (job in s.tasks ==> s.tasks[job].releases <= 1)
            && (job in s.tasks ==> (s.tasks[job].releases == 0 <==> Holding(s.tasks[job])))
            && (job in s.tasks && Active(s.tasks[job]) ==> s.tasks[job].releases == 0 && !s.closed)
            && (s.closed && job in s.tasks ==> s.tasks[job].releases == 1)
            && (s.closed ==> !Enabled(s, Reserve(job)) && !Enabled(s, ReserveCall(job)))
  {
    RunIsSound(steps);
    hide Run, Possible;
    var s := Run(steps);
    assert s.closed ==> job !in Held(s);
    assert job in s.tasks ==> Consistent(s.tasks[job]);
  }

  lemma {:induction false} RunSnoc(steps: seq<Step>, step: Step)
    ensures Run(steps + [step]) == Apply(Run(steps), step)
    ensures Possible(steps + [step]) <==> Possible(steps) && Enabled(Run(steps), step)
  {
    assert (steps + [step])[..|steps|] == steps;
  }

  /** Closing is final: whatever happens afterwards, no call is admitted, begins or goes on; all that
      is left to happen is that owners stop waiting. */
  lemma {:induction false} ClosingIsFinal(before: seq<Step>, later: seq<Step>, job: Job)
    requires Possible(before + later) && Run(before).closed
    ensures var s, r := Run(before), Run(before + later);
            && Possible(before) && r.closed && r.tasks.Keys == s.tasks.Keys
            && (job in r.tasks ==>
                  !Active(r.tasks[job])
                    && (r.tasks[job] == s.tasks[job] || r.tasks[job] == Moved(s.tasks[job], StopWaiting)))
  {
    if later == [] {
      assert before + later == before;
      ClosedMeansDrained(before, job);
    } else {
      var front, last := later[..|later| - 1], later[|later| - 1];
      assert before + later == before + front + [last];
      RunSnoc(before + front, last);
      ClosingIsFinal(before, front, job);
      if last.Thread? { ClosedOnlyStopsWaiting(before + front, last); }
      ClosedMeansDrained(before + later, job);
      hide Run, Possible, Active;
    }
  }

  lemma {:induction false} ClosedOnlyStopsWaiting(steps: seq<Step>, step: Step)
    requires Possible(steps) && Run(steps).closed && step.Thread? && Enabled(Run(steps), step)
    ensures step.move == StopWaiting
  {
    ClosedMeansDrained(steps, step.job);
    hide Run, Possible;
  }

  /** An owner that stops waiting takes nothing out of the scope: until the worker has given the
      reservation back, the scope cannot close. */
  lemma {:induction false} GivingUpHoldsTheScope(steps: seq<Step>, job: Job)
    requires Possible(steps + [Thread(job, StopWaiting)]) && !Run(steps).tasks[job].worker.Done?
    ensures !Enabled(Run(steps + [Thread(job, StopWaiting)]), Close)
    ensures Run(steps + [Thread(job, StopWaiting)]).pending == Run(steps).pending
  {
    RunSnoc(steps, Thread(job, StopWaiting));
    var r := Run(steps + [Thread(job, StopWaiting)]);
    RunIsSound(steps);
    RunIsSound(steps + [Thread(job, StopWaiting)]);
    hide Run, Possible;
    assert job in Held(r);
  }

  // ----- the scope can always drain

  /** The next step that brings a reservation closer to being given back. */
  function Onward(t: Task): Move {
    match t.owner
    case Submitting => SubmitFails
    case Failed => ReleaseAfterFailure
    case Calling => FunctionReturns
    case Returned => ReleaseAfterCall
    case _ => if t.worker.Queued? then Start else if t.worker.Running? then Finish else ReleaseInWorker
  }

  function Distance(t: Task): nat {
    if t.owner.Submitting? || t.owner.Calling? then 2
    else if t.owner.Failed? || t.owner.Returned? then 1
    else if t.worker.Queued? then 3 else if t.worker.Running? then 2 else if t.worker.Leaving? then 1 else 0
  }

  lemma {:induction false} OnwardIsCloser(t: Task)
    requires Consistent(t) && Holding(t)
    ensures CanMove(t, Onward(t)) && Distance(Moved(t, Onward(t))) < Distance(t)
    ensures Holding(Moved(t, Onward(t))) == !Releases(Onward(t))
  {
  }

  /** Wherever a run stands, its threads alone can give back the reservation of any one call. */
  lemma {:induction false} CallCanFinish(steps: seq<Step>, job: Job) returns (later: seq<Step>)
    requires Possible(steps) && job in Held(Run(steps))
    ensures Possible(steps + later) && Held(Run(steps + later)) == Held(Run(steps)) - {job}
    decreases Distance(Run(steps).tasks[job])
  {
    var s := Run(steps);
    RunIsSound(steps);
    OnwardIsCloser(s.tasks[job]);
    var step := Thread(job, Onward(s.tasks[job]));
    RunSnoc(steps, step);
    hide Run, Possible, Consistent, Holding, CanMove, Moved, Onward, Distance, Releases;
    var r := Run(steps + [step]);
    later := [step];
    if Holding(r.tasks[job]) {
      assert Held(r) == Held(s);
      var rest := CallCanFinish(steps + [step], job);
      later := [step] + rest;
      assert steps + later == steps + [step] + rest;
    } else {
      assert Held(r) == Held(s) - {job};
    }
  }

  /** No reachable state is stuck: every run goes on to one where the scope may close. */
  lemma {:induction false} ScopeCanClose(steps: seq<Step>) returns (later: seq<Step>)
    requires Possible(steps)
    ensures Possible(steps + later) && Enabled(Run(steps + later), Close)
    decreases |Held(Run(steps))|
  {
    hide *;
    if Held(Run(steps)) == {} {
      later := [];
      assert steps + later == steps;
      NothingHeld(steps);
    } else {
      var job :| job in Held(Run(steps));
      var first := CallCanFinish(steps, job);
      var rest := ScopeCanClose(steps + first);
      later := first + rest;
      assert steps + later == steps + first + rest;
    }
  }

  lemma {:induction false} NothingHeld(steps: seq<Step>)
    requires Possible(steps) && Held(Run(steps)) == {}
    ensures Enabled(Run(steps), Close)
  {
    RunIsSound(steps);
    hide Run, Possible, Held;
  }
}
