/** What becomes of a network edit once it is saved: whether the runtime ever applies it. */
module SavedEdits {
  import opened NetworkSettings
  import opened ServerOverrides

  /** At this step the call saves its edit. */
  predicate Saves(s: State, step: Step, s': State, id: nat) {
    && step.Advance? && step.id == id && id in s.calls && s.calls[id].at.Saving?
    && id in s'.calls && s'.calls[id].at.Sending?
  }

  /** The edit is saved and not sent yet. */
  predicate IsAhead(s: State, id: nat) {
    id in s.calls && s.calls[id].at.Sending? && s.calls[id].at.saved
  }

  predicate HoldsMessage(s: State, i: int, id: nat) {
    0 <= i < |s.queue| && s.queue[i].id == id
  }

  /** The saved edit waits for its turn. */
  ghost predicate IsQueued(s: State, id: nat) {
    exists i :: HoldsMessage(s, i, id) && s.queue[i].saved
  }

  /** Nothing of the edit is under way, and nothing ever will be. */
  ghost predicate IsSettled(s: State, id: nat) {
    && id < s.next && (id in s.calls ==> s.calls[id].at.Waiting? || s.calls[id].at.Acknowledged?)
    && forall i :: !HoldsMessage(s, i, id)
  }

  /** The step takes the saved edit away before its turn: its call is dropped unsent, or the runtime closes. */
  ghost predicate Loses(s: State, step: Step, id: nat) {
    || (step == Drop(id) && IsAhead(s, id))
    || (step.Close? && (IsAhead(s, id) || IsQueued(s, id)))
  }

  /** The edit was applied between steps `m` and `n`. */
  ghost predicate IsPublished(states: seq<State>, steps: seq<Step>, m: nat, n: nat, id: nat)
    requires m < n <= |steps| < |states|
  {
    n > m + 1 && (IsPublished(states, steps, m, n - 1, id) || Publishes(states[n - 1], steps[n - 1], id))
  }

  /** The runtime was closed at step `m`, or the edit was lost between steps `m` and `n`. */
  ghost predicate IsLost(states: seq<State>, steps: seq<Step>, m: nat, n: nat, id: nat)
    requires m < n <= |steps| < |states|
  {
    if n == m + 1 then !states[m].open
    else IsLost(states, steps, m, n - 1, id) || Loses(states[n - 1], steps[n - 1], id)
  }

  // ---------------------------------------------------------------- one step

  lemma AheadIsNotQueued(url: UrlParser, s: State, id: nat, i: int)
    requires Ok(url, s) && IsAhead(s, id)
    ensures !HoldsMessage(s, i, id)
  {
    if 0 <= i < |s.queue| { NotQueuedYet(url, s, id, i); }
  }

  lemma SavingGoesAhead(url: UrlParser, s: State, step: Step, id: nat)
    requires Allowed(s, step) && Saves(s, step, Next(url, s, step), id)
    ensures IsAhead(Next(url, s, step), id) && Next(url, s, step).open == s.open
  {
  }

  /** Only sending queues the edit, only while the runtime is open, and dropping the call forgets it. */
  lemma StepFromAhead(url: UrlParser, s: State, step: Step, id: nat)
    requires Ok(url, s) && Allowed(s, step) && IsAhead(s, id)
    ensures !Publishes(s, step, id) && !IsQueued(s, id)
    ensures
      var s' := Next(url, s, step);
      if step.Advance? && step.id == id then
        !IsAhead(s', id) && if s.open then IsQueued(s', id) && s'.open else IsSettled(s', id)
      else if step == Drop(id) then IsSettled(s', id)
      else IsAhead(s', id) && (s'.open <==> s.open && !step.Close?)
  {
    var s' := Next(url, s, step);
    forall i
      ensures !HoldsMessage(s, i, id)
    {
      AheadIsNotQueued(url, s, id, i);
    }
    assert id < s.next by { assert CallOk(url, s, id, s.calls[id]); }
    assert step.Apply? ==> !HoldsMessage(s, 0, id);
    if step.Advance? && step.id == id && s.open {
      assert HoldsMessage(s', |s.queue|, id) && s'.queue[|s.queue|].saved;
    }
    assert s'.queue == s.queue ==> forall i :: HoldsMessage(s', i, id) ==> HoldsMessage(s, i, id);
  }

  /** A queued edit is applied at its turn, and is gone only then or when the runtime closes. */
  lemma StepFromQueued(url: UrlParser, s: State, step: Step, id: nat)
    requires Ok(url, s) && Allowed(s, step) && IsQueued(s, id) && s.open
    ensures !IsAhead(s, id)
    ensures
      var s' := Next(url, s, step);
      if Publishes(s, step, id) || step.Close? then IsSettled(s', id)
      else IsQueued(s', id) && s'.open
  {
    var s' := Next(url, s, step);
    var i :| HoldsMessage(s, i, id) && s.queue[i].saved;
    assert MessageOk(url, s, s.queue[i]);
    if step.Apply? {
      assert MessageOk(url, s, s.queue[0]);
      forall j
        ensures HoldsMessage(s', j, id) <==> j == i - 1 && i > 0
      {
        assert 0 <= j < |s'.queue| ==> s'.queue[j] == s.queue[j + 1];
      }
    } else if !step.Close? {
      assert s.queue <= s'.queue;
      assert HoldsMessage(s', i, id);
    }
  }

  /** What is settled stays settled, and nothing of it is applied or lost any more. */
  lemma StepFromSettled(url: UrlParser, s: State, step: Step, id: nat)
    requires Ok(url, s) && Allowed(s, step) && IsSettled(s, id)
    ensures !Publishes(s, step, id) && !Loses(s, step, id) && IsSettled(Next(url, s, step), id)
  {
    var s' := Next(url, s, step);
    assert step.Apply? ==> !HoldsMessage(s, 0, id);
    forall j
      ensures !HoldsMessage(s', j, id)
    {
      assert !HoldsMessage(s, j, id) && !HoldsMessage(s, j + 1, id);
    }
  }

  // ---------------------------------------------------------------- whole runs

  lemma {:induction false} PublishedAtSomeStep(states: seq<State>, steps: seq<Step>, m: nat, n: nat, id: nat)
    requires m < n <= |steps| < |states|
    ensures IsPublished(states, steps, m, n, id) <==> exists k :: m < k < n && Publishes(states[k], steps[k], id)
  {
    if n > m + 1 { PublishedAtSomeStep(states, steps, m, n - 1, id); }
  }

  lemma {:induction false} LostAtSomeStep(states: seq<State>, steps: seq<Step>, m: nat, n: nat, id: nat)
    requires m < n <= |steps| < |states|
    ensures
      IsLost(states, steps, m, n, id)
      <==> !states[m].open || exists k :: m < k < n && Loses(states[k], steps[k], id)
  {
    if n > m + 1 { LostAtSomeStep(states, steps, m, n - 1, id); }
  }

  /** Ahead, queued or settled: how far a saved edit is, and what that says of what was done with it. */
  ghost predicate IsAsFarAs(states: seq<State>, steps: seq<Step>, m: nat, n: nat, id: nat)
    requires m < n <= |steps| < |states|
  {
    var s, published, lost := states[n], IsPublished(states, steps, m, n, id), IsLost(states, steps, m, n, id);
    || (IsAhead(s, id) && !published && (lost <==> !s.open))
    || (IsQueued(s, id) && s.open && !published && !lost)
    || (IsSettled(s, id) && (published <==> !lost))
  }

  lemma OneStepFurther(url: UrlParser, states: seq<State>, steps: seq<Step>, m: nat, n: nat, id: nat)
    requires IsRun(url, states, steps) && Init(states[0]) && m < n < |steps| && IsAsFarAs(states, steps, m, n, id)
    ensures IsAsFarAs(states, steps, m, n + 1, id)
  {
    var s, step := states[n], steps[n];
    RunIsOk(url, states, steps, n);
    assert states[n + 1] == Next(url, s, step);
    if IsAhead(s, id) { StepFromAhead(url, s, step, id); }
    else if IsQueued(s, id) && s.open { StepFromQueued(url, s, step, id); }
    else { StepFromSettled(url, s, step, id); }
  }

  lemma JustSaved(url: UrlParser, states: seq<State>, steps: seq<Step>, m: nat, id: nat)
    requires IsRun(url, states, steps) && m < |steps| && Saves(states[m], steps[m], states[m + 1], id)
    ensures IsAsFarAs(states, steps, m, m + 1, id)
  {
    assert Allowed(states[m], steps[m]) && states[m + 1] == Next(url, states[m], steps[m]);
    SavingGoesAhead(url, states[m], steps[m], id);
    assert !IsPublished(states, steps, m, m + 1, id);
    assert IsLost(states, steps, m, m + 1, id) <==> !states[m].open;
  }

  lemma {:induction false} SavedEditsGoOn(
      url: UrlParser, states: seq<State>, steps: seq<Step>, m: nat, n: nat, id: nat)
    requires IsRun(url, states, steps) && Init(states[0]) && m < n <= |steps|
    requires IsAsFarAs(states, steps, m, m + 1, id)
    ensures IsAsFarAs(states, steps, m, n, id)
  {
    if n > m + 1 {
      SavedEditsGoOn(url, states, steps, m, n - 1, id);
      OneStepFurther(url, states, steps, m, n - 1, id);
    }
  }

  /**
   * A saved edit that is no longer under way was applied if and only if the runtime was open when it was
   * saved and, since then, its call was not dropped before sending it and no closing came before its turn.
   */
  lemma SavedEditTakesEffectIff(
      url: UrlParser, states: seq<State>, steps: seq<Step>, m: nat, n: nat, id: nat)
    requires IsRun(url, states, steps) && Init(states[0]) && m < n <= |steps|
    requires Saves(states[m], steps[m], states[m + 1], id)
    requires !IsAhead(states[n], id) && !IsQueued(states[n], id)
    ensures
      (exists k :: m < k < n && Publishes(states[k], steps[k], id))
      <==> states[m].open && forall k :: m < k < n ==> !Loses(states[k], steps[k], id)
  {
    JustSaved(url, states, steps, m, id);
    SavedEditsGoOn(url, states, steps, m, n, id);
    PublishedAtSomeStep(states, steps, m, n, id);
    LostAtSomeStep(states, steps, m, n, id);
  }
}
