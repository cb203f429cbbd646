/** The cancellation token: its locked operations as methods, and every interleaving of them. */
module CancellationToken {

  /** Callbacks are numbered in the order of their registration. */
  type Callback = nat

  datatype Token = Token(cancelled: bool, drained: bool, callbacks: seq<Callback>)

  function Fresh(): Token { Token(false, false, []) }

  function Requested(t: Token): Token { t.(cancelled := true) }

  predicate Drains(t: Token) { t.cancelled && !t.drained }

  function Drained(t: Token): Token { if Drains(t) then t.(drained := true) else t }

  function Cancelled(t: Token): Token { t.(cancelled := true, drained := true) }

  function Subscribed(t: Token, callback: Callback): Token { t.(callbacks := t.callbacks + [callback]) }

  function Without(callbacks: seq<Callback>, callback: Callback): seq<Callback> {
    if callbacks == [] then []
    else if callbacks[0] == callback then callbacks[1..]
    else [callbacks[0]] + Without(callbacks[1..], callback)
  }

  function Unsubscribed(t: Token, callback: Callback): Token { t.(callbacks := Without(t.callbacks, callback)) }

  /** Each method is what one thread does while it holds the lock; `ran` logs the callbacks it then
      runs outside the lock. */
  class CancellationToken {
    var cancelled: bool
    var drained: bool
    var callbacks: seq<Callback>
    var ran: seq<Callback>

    constructor ()
      ensures View() == Fresh() && ran == []
    {
      cancelled, drained, callbacks, ran := false, false, [], [];
    }

    ghost function View(): Token
      reads this
    {
      Token(cancelled, drained, callbacks)
    }

    method Request()
      modifies this
      ensures View() == Requested(old(View())) && ran == old(ran)
    {
      cancelled := true;
    }

    /** Callback exceptions do not stop the loop, so the whole snapshot runs, in order. */
    method RunAll(snapshot: seq<Callback>)
      modifies this`ran
      ensures ran == old(ran) + snapshot
    {
      for i := 0 to |snapshot|
        invariant ran == old(ran) + snapshot[..i]
      {
        ran := ran + [snapshot[i]];
      }
    }

    method RunPendingCallbacks()
      modifies this
      ensures View() == Drained(old(View()))
      ensures ran == old(ran) + if Drains(old(View())) then old(callbacks) else []
    {
      if drained || !cancelled { return; }
      drained := true;
      RunAll(callbacks);
    }

    method Cancel()
      modifies this
      ensures View() == Cancelled(old(View()))
      ensures ran == old(ran) + old(callbacks)
    {
      cancelled, drained := true, true;
      RunAll(callbacks);
    }

    method AddCallback(callback: Callback)
      modifies this
      ensures View() == Subscribed(old(View()), callback)
      ensures ran == old(ran) + if old(cancelled) && old(drained) then [callback] else []
    {
      callbacks := callbacks + [callback];
      if cancelled && drained { RunAll([callback]); }
    }

    method Unsubscribe(callback: Callback)
      modifies this
      ensures View() == Unsubscribed(old(View()), callback) && ran == old(ran)
    {
      hide Without;
      var i := 0;
      assert callbacks[0..] == callbacks;
      while i < |callbacks| && callbacks[i] != callback
        modifies {}
        invariant 0 <= i <= |callbacks|
        invariant Without(callbacks, callback) == callbacks[..i] + Without(callbacks[i..], callback)
      {
        WithoutStep(callbacks, i, callback);
        i := i + 1;
      }
      WithoutEnds(callbacks, i, callback);
      if i < |callbacks| {
        callbacks := callbacks[..i] + callbacks[i + 1..];
      }
    }
  }

  lemma {:induction false} WithoutStep(callbacks: seq<Callback>, i: nat, callback: Callback)
    requires i < |callbacks| && callbacks[i] != callback
    ensures callbacks[..i] + Without(callbacks[i..], callback)
            == callbacks[..i + 1] + Without(callbacks[i + 1..], callback)
  {
    assert callbacks[i..][1..] == callbacks[i + 1..];
    assert callbacks[..i + 1] == callbacks[..i] + [callbacks[i]];
  }

  lemma {:induction false} WithoutEnds(callbacks: seq<Callback>, i: nat, callback: Callback)
    requires i <= |callbacks| && (i < |callbacks| ==> callbacks[i] == callback)
    ensures callbacks[..i] + Without(callbacks[i..], callback)
         == if i < |callbacks| then callbacks[..i] + callbacks[i + 1..] else callbacks
  {
    if i < |callbacks| { assert callbacks[i..][1..] == callbacks[i + 1..]; }
  }

  // ----- interleavings

  /** `due` holds the callbacks some thread has taken out under the lock and not yet run. */
  datatype System = System(token: Token, next: nat, due: multiset<Callback>, ran: multiset<Callback>,
                           gone: set<Callback>)

  datatype Step = RequestStep
                | TakePending
                | CancelStep
                | Add
                | Remove(callback: Callback)
                | RunOne(callback: Callback)

  /** A callback runs only after some thread took it out, and can be removed only once it was added. */
  predicate Enabled(s: System, step: Step) {
    (step.RunOne? ==> step.callback in s.due) && (step.Remove? ==> step.callback < s.next)
  }

  function Apply(s: System, step: Step): System {
    match step
    case RequestStep => s.(token := Requested(s.token))
    case TakePending => s.(token := Drained(s.token),
                           due := if Drains(s.token) then s.due + multiset(s.token.callbacks) else s.due)
    case CancelStep => s.(token := Cancelled(s.token), due := s.due + multiset(s.token.callbacks))
    case Add => s.(token := Subscribed(s.token, s.next), next := s.next + 1,
                   due := if s.token.cancelled && s.token.drained then s.due + multiset{s.next} else s.due)
    case Remove(callback) => s.(token := Unsubscribed(s.token, callback), gone := s.gone + {callback})
    case RunOne(callback) => s.(due := s.due - multiset{callback}, ran := s.ran + multiset{callback})
  }

  function Start(): System { System(Fresh(), 0, multiset{}, multiset{}, {}) }

  ghost function Run(steps: seq<Step>): System {
    if steps == [] then Start() else Apply(Run(steps[..|steps| - 1]), steps[|steps| - 1])
  }

  ghost predicate Possible(steps: seq<Step>) {
    steps != [] ==> Possible(steps[..|steps| - 1]) && Enabled(Run(steps[..|steps| - 1]), steps[|steps| - 1])
  }

  /** The number of cancels that came after the drain and found the callback subscribed. */
  ghost function Late(steps: seq<Step>, c: Callback): nat {
    if steps == [] then 0
    else
      var before := steps[..|steps| - 1];
      Late(before, c) + if LateCancel(Run(before), steps[|steps| - 1], c) then 1 else 0
  }

  predicate LateCancel(s: System, step: Step, c: Callback) {
    step.CancelStep? && s.token.drained && c in s.token.callbacks
  }

  /** How often a callback has run or is about to. */
  function Runs(s: System, callback: Callback): nat { s.due[callback] + s.ran[callback] }

  function Subscriptions(s: System, callback: Callback): nat { multiset(s.token.callbacks)[callback] }

  /** Before the drain nothing is due. From the drain on, a subscribed callback is due or has run once,
      and once more for each late cancel; any other has that many runs or none at all. */
  ghost predicate Sound(s: System, c: Callback, late: nat) {
    && (s.token.drained ==> s.token.cancelled)
    && Subscriptions(s, c) <= (if c < s.next then 1 else 0)
    && (c < s.next && c !in s.gone ==> Subscriptions(s, c) == 1)
    && (Runs(s, c) == 1 + late || (Runs(s, c) == 0 && late == 0))
    && (Runs(s, c) > 0 ==> s.token.drained && c < s.next)
    && (s.token.drained && Subscriptions(s, c) == 1 ==> Runs(s, c) == 1 + late)
  }

  lemma {:induction false} WithoutOnce(callbacks: seq<Callback>, callback: Callback, c: Callback)
    ensures multiset(Without(callbacks, callback))[c]
         == if c == callback && 0 < multiset(callbacks)[c] then multiset(callbacks)[c] - 1 else multiset(callbacks)[c]
  {
    if callbacks != [] {
      assert callbacks == [callbacks[0]] + callbacks[1..];
      if callbacks[0] != callback {
        WithoutOnce(callbacks[1..], callback, c);
      }
    }
  }

  lemma {:induction false} StepKeepsSound(s: System, step: Step, c: Callback, late: nat)
    requires Sound(s, c, late) && Enabled(s, step)
    ensures Sound(Apply(s, step), c, late + if LateCancel(s, step, c) then 1 else 0)
  {
    assert c in s.token.callbacks <==> c in multiset(s.token.callbacks);
    if step.Remove? { WithoutOnce(s.token.callbacks, step.callback, c); }
  }

  lemma {:induction false} RunIsSound(steps: seq<Step>, c: Callback)
    requires Possible(steps)
    ensures Sound(Run(steps), c, Late(steps, c))
  {
    if steps == [] {
      assert multiset(Start().token.callbacks)[c] == 0;
    } else {
      hide Sound, Apply, LateCancel, Enabled;
      RunIsSound(steps[..|steps| - 1], c);
      StepKeepsSound(Run(steps[..|steps| - 1]), steps[|steps| - 1], c, Late(steps[..|steps| - 1], c));
    }
  }

  /** Exactly how often a callback runs, in every interleaving. Once the token is drained and nothing
      is left to run, a callback that was registered, before, during or after the drain, and never
      removed has run once and once more for each late cancel: exactly once if and only if no cancel
      after the drain found it subscribed. A removed one has run that often or not at all, and what
      was never registered has not run. */
  lemma {:induction false} RunsOncePerCancel(steps: seq<Step>, c: Callback)
    requires Possible(steps) && Run(steps).token.drained && Run(steps).due == multiset{}
    ensures var s := Run(steps);
            && (c < s.next && c !in s.gone ==> s.ran[c] == 1 + Late(steps, c))
            && (c < s.next && c !in s.gone ==> (s.ran[c] == 1 <==> Late(steps, c) == 0))
            && (s.ran[c] == 1 + Late(steps, c) || (s.ran[c] == 0 && Late(steps, c) == 0))
            && (s.next <= c ==> s.ran[c] == 0)
  {
    RunIsSound(steps, c);
    hide Run, Late, Possible;
  }

  /** Steps that can happen, where nobody cancels a token that was already drained. */
  ghost predicate DrainedOnce(steps: seq<Step>) {
    steps != [] ==>
      && DrainedOnce(steps[..|steps| - 1])
      && Enabled(Run(steps[..|steps| - 1]), steps[|steps| - 1])
      && (steps[|steps| - 1].CancelStep? ==> !Run(steps[..|steps| - 1]).token.drained)
  }

  lemma {:induction false} DrainedOnceHasNoLate(steps: seq<Step>, c: Callback)
    requires DrainedOnce(steps)
    ensures Possible(steps) && Late(steps, c) == 0
  {
    hide Apply, Enabled;
    if steps != [] { DrainedOnceHasNoLate(steps[..|steps| - 1], c); }
  }

  /** So with requests and drains only, and at most one cancel in place of the drain, every registered
      callback that was never removed has run exactly once, and any other at most once. */
  lemma {:induction false} EachRunsOnce(steps: seq<Step>, c: Callback)
    requires DrainedOnce(steps) && Run(steps).token.drained && Run(steps).due == multiset{}
    ensures var s := Run(steps);
            && (c < s.next && c !in s.gone ==> s.ran[c] == 1)
            && s.ran[c] <= (if c < s.next then 1 else 0)
  {
    DrainedOnceHasNoLate(steps, c);
    RunsOncePerCancel(steps, c);
  }

  /** Nothing runs before the drain, however often a cancellation was requested. */
  lemma {:induction false} NothingRunsEarly(steps: seq<Step>, c: Callback)
    requires Possible(steps) && !Run(steps).token.drained
    ensures Run(steps).ran[c] == 0 && Run(steps).due[c] == 0
  {
    RunIsSound(steps, c);
  }

  lemma {:induction false} RunSnoc(steps: seq<Step>, step: Step)
    ensures Run(steps + [step]) == Apply(Run(steps), step)
    ensures Possible(steps) && Enabled(Run(steps), step) ==> Possible(steps + [step])
  {
    hide Apply, Enabled;
    assert (steps + [step])[..|steps|] == steps;
  }

  /** A cancel after the drain takes every subscribed callback out again, on top of all earlier runs. */
  lemma {:induction false} CancelAfterDrainRunsAgain(steps: seq<Step>, c: Callback)
    requires Possible(steps) && Run(steps).token.drained && c in Run(steps).token.callbacks
    ensures Possible(steps + [CancelStep])
    ensures Runs(Run(steps + [CancelStep]), c) == 2 + Late(steps, c)
  {
    RunIsSound(steps, c);
    RunSnoc(steps, CancelStep);
    assert c in multiset(Run(steps).token.callbacks);
    hide Run, Late, Possible;
  }
}
