/**
  src/base/observer_list_threadsafe.h: an observer that a thread has removed is not called on that thread again.

  The state machine is the one of ObserverListsThreadSafe. The removal itself happens on the context after the
  lock is released; by then the context may no longer be the listed one, and other contexts of the thread may
  still be iterated over by notifications that are under way further down its stack.
*/
module ObserverListRemovals {
  import opened Options
  import opened ObserverListsThreadSafe
  import L = ObserverLists

  // ---------------------------------------------------------------- a second invariant

  /** A thread that is removing works on the context it is listed under, or is not listed at all. */
  predicate RemovesListed(s: State, t: ThreadId) {
    var stk := StackOf(s, t);
    stk.Push? && stk.top.Removing? && t in s.lists ==> s.lists[t] == stk.top.ctx
  }

  ghost predicate Tidy(s: State) {
    && (forall c :: c in s.heap ==> L.NoDuplicates(s.heap[c].slots))
    && (forall t :: RemovesListed(s, t))
  }

  lemma {:induction false} EditedStayDistinct(slots: L.Slots, depth: nat, o: L.Observer)
    requires L.NoDuplicates(slots)
    ensures L.NoDuplicates(L.Added(slots, o))
    ensures L.NoDuplicates(L.Removed(slots, depth, o))
  {
  }

  lemma {:induction false} SlotsStayDistinct(slots: L.Slots, depth: nat, o: L.Observer)
    requires L.NoDuplicates(slots)
    ensures L.NoDuplicates(L.Added(slots, o))
    ensures L.NoDuplicates(L.Removed(slots, depth, o))
    ensures L.NoDuplicates(L.Compacted(slots))
  {
    EditedStayDistinct(slots, depth, o);
    L.RegisteredDistinct(slots);
  }

  lemma {:induction false} GoKeepsDistinct(s: State, t: ThreadId, c: Address)
    requires Inv(s) && Tidy(s) && Enabled(s, Go(t)) && c in Next(s, Go(t)).heap
    ensures L.NoDuplicates(Next(s, Go(t)).heap[c].slots)
  {
    var f := StackOf(s, t).top;
    assert FramesOk(s.heap, StackOf(s, t), t);
    var x := s.heap[f.ctx];
    SlotsStayDistinct(x.slots, x.depth, if f.Adding? || f.Removing? then f.obs else 0);
    if c != f.ctx { assert s.heap[c] == Next(s, Go(t)).heap[c]; }
  }

  lemma {:induction false} OthersKeepDistinct(s: State, step: Step, c: Address)
    requires Tidy(s) && Enabled(s, step) && !step.Go? && c in Next(s, step).heap
    ensures L.NoDuplicates(Next(s, step).heap[c].slots)
  {
  }

  lemma {:induction false} GoKeepsListed(s: State, t: ThreadId, u: ThreadId)
    requires Inv(s) && Tidy(s) && Enabled(s, Go(t))
    ensures RemovesListed(Next(s, Go(t)), u)
  {
    assert RemovesListed(s, u);
    GoStacks(s, t);
    assert FramesOk(s.heap, StackOf(s, t), t);
  }

  /** RemoveObserver unlists the context it is about to remove from, or leaves it listed. */
  lemma {:induction false} RemoveLockKeepsListed(s: State, t: ThreadId, o: L.Observer, u: ThreadId)
    requires Tidy(s) && Enabled(s, RemoveLock(t, o))
    ensures RemovesListed(Next(s, RemoveLock(t, o)), u)
  {
    assert RemovesListed(s, u);
  }

  lemma {:induction false} OthersKeepListed(s: State, step: Step, u: ThreadId)
    requires RemovesListed(s, u) && Enabled(s, step) && !step.Go? && !step.RemoveLock?
    ensures RemovesListed(Next(s, step), u)
  {
    match step {
      case AddLock(t, o, room) => AddLockKeepsListed(s, t, o, room, u);
      case RunTask(t, a) => RunTaskKeepsListed(s, t, a, u);
      case _ =>
    }
  }

  lemma {:induction false} AddLockKeepsListed(s: State, t: ThreadId, o: L.Observer, room: Address, u: ThreadId)
    requires RemovesListed(s, u) && Enabled(s, AddLock(t, o, room))
    ensures RemovesListed(Next(s, AddLock(t, o, room)), u)
  {
  }

  lemma {:induction false} RunTaskKeepsListed(s: State, t: ThreadId, a: Address, u: ThreadId)
    requires RemovesListed(s, u) && Enabled(s, RunTask(t, a))
    ensures RemovesListed(Next(s, RunTask(t, a)), u)
  {
  }

  lemma {:induction false} NextTidy(s: State, step: Step)
    requires Inv(s) && Tidy(s) && Enabled(s, step)
    ensures Tidy(Next(s, step))
  {
    forall c | c in Next(s, step).heap ensures L.NoDuplicates(Next(s, step).heap[c].slots) {
      match step {
        case Go(t) => GoKeepsDistinct(s, t, c);
        case _ => OthersKeepDistinct(s, step, c);
      }
    }
    forall u ensures RemovesListed(Next(s, step), u) {
      match step {
        case Go(t) => GoKeepsListed(s, t, u);
        case RemoveLock(t, o) => RemoveLockKeepsListed(s, t, o, u);
        case _ =>
          assert RemovesListed(s, u);
          OthersKeepListed(s, step, u);
      }
    }
  }

  lemma {:induction false} RunTidy(s: State, steps: seq<Step>)
    requires Inv(s) && Tidy(s) && EnabledAll(s, steps)
    ensures Inv(Run(s, steps)) && Tidy(Run(s, steps))
    decreases |steps|
  {
    if steps != [] {
      NextOk(s, steps[0]);
      NextTidy(s, steps[0]);
      RunTidy(Next(s, steps[0]), steps[1..]);
    }
  }

  // ---------------------------------------------------------------- the removal takes effect

  /** The step at which RemoveObserver(o) on thread t has done its work. */
  predicate Removes(s: State, step: Step, t: ThreadId, o: L.Observer)
    requires Enabled(s, step)
  {
    || (step == RemoveLock(t, o) && t !in s.lists)
    || (step == Go(t) && StackOf(s, t).top.Removing? && StackOf(s, t).top.obs == o)
  }

  /** The step at which AddObserver(o) on thread t puts o into a context. */
  predicate Adds(s: State, step: Step, t: ThreadId, o: L.Observer)
    requires Enabled(s, step)
  {
    step == Go(t) && StackOf(s, t).top.Adding? && StackOf(s, t).top.obs == o
  }

  /** The step at which a notification on thread t enters o's callback. */
  predicate Calls(s: State, step: Step, t: ThreadId, o: L.Observer)
    requires Enabled(s, step)
  {
    var stk' := StackOf(Next(s, step), t);
    step == Go(t) && StackOf(s, t).top.Iterating? && stk'.Push? && stk'.top.Calling? && stk'.top.obs == o
  }

  /** No context of the thread holds the observer, not even one that is no longer listed. */
  ghost predicate Gone(s: State, t: ThreadId, o: L.Observer) {
    forall c :: c in s.heap && s.heap[c].owner == t ==> Some(o) !in s.heap[c].slots
  }

  lemma {:induction false} RemovedIsGone(slots: L.Slots, depth: nat, o: L.Observer)
    requires L.NoDuplicates(slots)
    ensures Some(o) !in L.Removed(slots, depth, o)
  {
    var i := L.Find(slots, o);
    assert forall j :: 0 <= j < i ==> slots[j] == slots[..i][j];
  }

  /** A context that is not listed and that no call is working on holds nothing but a null slot. */
  lemma {:induction false} UnlistedIsEmpty(s: State, t: ThreadId, c: Address, o: L.Observer)
    requires Inv(s) && c in s.heap && s.heap[c].owner == t && !Listed(s, c, t)
    requires StackOf(s, t).Push? ==> StackOf(s, t).top.Calling? || StackOf(s, t).top.ctx != c
    ensures Some(o) !in s.heap[c].slots
  {
    assert ContextOk(c, s.heap[c], false, StackOf(s, t));
  }

  lemma {:induction false} GoneAfterRemoval(s: State, step: Step, t: ThreadId, o: L.Observer)
    requires Inv(s) && Tidy(s) && Enabled(s, step) && Removes(s, step, t, o)
    ensures Gone(Next(s, step), t, o)
  {
    var s' := Next(s, step);
    forall c | c in s'.heap && s'.heap[c].owner == t ensures Some(o) !in s'.heap[c].slots {
      if step.Go? {
        RemovingLeavesNone(s, t, c);
      } else {
        UnlistedIsEmpty(s, t, c, o);
      }
    }
  }

  lemma {:induction false} RemovingLeavesNone(s: State, t: ThreadId, c: Address)
    requires Inv(s) && Tidy(s) && Enabled(s, Go(t)) && StackOf(s, t).top.Removing?
    requires c in Next(s, Go(t)).heap && Next(s, Go(t)).heap[c].owner == t
    ensures Some(StackOf(s, t).top.obs) !in Next(s, Go(t)).heap[c].slots
  {
    var f := StackOf(s, t).top;
    assert FramesOk(s.heap, StackOf(s, t), t) && RemovesListed(s, t);
    if c == f.ctx {
      RemovedIsGone(s.heap[c].slots, s.heap[c].depth, f.obs);
    } else {
      UnlistedIsEmpty(s, t, c, f.obs);
    }
  }

  // ---------------------------------------------------------------- and stays in effect

  lemma {:induction false} AbsentThroughGo(s: State, u: ThreadId, c: Address, o: L.Observer)
    requires !s.fault && FramesOk(s.heap, StackOf(s, u), u) && Enabled(s, Go(u))
    requires c in s.heap ==> Some(o) !in s.heap[c].slots && !Adds(s, Go(u), s.heap[c].owner, o)
    ensures c in Next(s, Go(u)).heap ==> Some(o) !in Next(s, Go(u)).heap[c].slots
  {
    var f := StackOf(s, u).top;
    var x := s.heap[f.ctx];
    SlotsShrink(x.slots, x.depth, if f.Adding? || f.Removing? then f.obs else 0, o);
    if c != f.ctx && c in Next(s, Go(u)).heap { assert s.heap[c] == Next(s, Go(u)).heap[c]; }
  }

  lemma {:induction false} GoneThroughGo(s: State, u: ThreadId, t: ThreadId, o: L.Observer)
    requires Inv(s) && Gone(s, t, o) && Enabled(s, Go(u)) && !Adds(s, Go(u), t, o)
    ensures Gone(Next(s, Go(u)), t, o)
  {
    assert FramesOk(s.heap, StackOf(s, u), u);
    GoKeepsOwners(s, u);
    forall c | c in Next(s, Go(u)).heap && Next(s, Go(u)).heap[c].owner == t
      ensures Some(o) !in Next(s, Go(u)).heap[c].slots
    {
      AbsentThroughGo(s, u, c, o);
    }
  }

  lemma {:induction false} GoKeepsOwners(s: State, u: ThreadId)
    requires !s.fault && FramesOk(s.heap, StackOf(s, u), u) && Enabled(s, Go(u))
    ensures forall c :: c in Next(s, Go(u)).heap ==> c in s.heap && Next(s, Go(u)).heap[c].owner == s.heap[c].owner
  {
  }

  lemma {:induction false} GoneStays(s: State, step: Step, t: ThreadId, o: L.Observer)
    requires Inv(s) && Gone(s, t, o) && Enabled(s, step) && !Adds(s, step, t, o)
    ensures Gone(Next(s, step), t, o)
  {
    match step {
      case Go(u) => GoneThroughGo(s, u, t, o);
      case _ =>
    }
  }

  /** A notification only ever enters observers that its context still holds. */
  lemma {:induction false} GoneIsNotCalled(s: State, step: Step, t: ThreadId, o: L.Observer)
    requires Inv(s) && Gone(s, t, o) && Enabled(s, step)
    ensures !Calls(s, step, t, o)
  {
    if step == Go(t) && StackOf(s, t).top.Iterating? {
      var f := StackOf(s, t).top;
      assert FramesOk(s.heap, StackOf(s, t), t);
      var x := s.heap[f.ctx];
      var n := L.NextSlot(x.slots, f.index, f.maxIndex);
      assert n < L.Bound(x.slots, f.maxIndex) ==> x.slots[n] in x.slots;
    }
  }

  predicate NeverAdds(s: State, steps: seq<Step>, t: ThreadId, o: L.Observer)
    requires EnabledAll(s, steps)
    decreases |steps|
  {
    steps == [] || (!Adds(s, steps[0], t, o) && NeverAdds(Next(s, steps[0]), steps[1..], t, o))
  }

  predicate NeverCalls(s: State, steps: seq<Step>, t: ThreadId, o: L.Observer)
    requires EnabledAll(s, steps)
    decreases |steps|
  {
    steps == [] || (!Calls(s, steps[0], t, o) && NeverCalls(Next(s, steps[0]), steps[1..], t, o))
  }

  lemma {:induction false} GoneIsNeverCalled(s: State, steps: seq<Step>, t: ThreadId, o: L.Observer)
    requires Inv(s) && Gone(s, t, o) && EnabledAll(s, steps) && NeverAdds(s, steps, t, o)
    ensures NeverCalls(s, steps, t, o)
    decreases |steps|
  {
    if steps != [] {
      GoneIsNotCalled(s, steps[0], t, o);
      GoneStays(s, steps[0], t, o);
      NextOk(s, steps[0]);
      GoneIsNeverCalled(Next(s, steps[0]), steps[1..], t, o);
    }
  }

  /**
    Once RemoveObserver(o) on thread t has done its removal, no notification enters o's callback on t, however the
    threads go on, until t adds o again: neither a later task, nor one that is already iterating further down.
  */
  lemma {:induction false} NotCalledAfterRemoval(
      existingOnly: bool, steps: seq<Step>, step: Step, more: seq<Step>, t: ThreadId, o: L.Observer)
    requires EnabledAll(Start(existingOnly), steps)
    requires Enabled(Run(Start(existingOnly), steps), step)
    requires Removes(Run(Start(existingOnly), steps), step, t, o)
    requires EnabledAll(Next(Run(Start(existingOnly), steps), step), more)
    requires NeverAdds(Next(Run(Start(existingOnly), steps), step), more, t, o)
    ensures NeverCalls(Next(Run(Start(existingOnly), steps), step), more, t, o)
  {
    var s := Run(Start(existingOnly), steps);
    RunTidy(Start(existingOnly), steps);
    GoneAfterRemoval(s, step, t, o);
    NextOk(s, step);
    GoneIsNeverCalled(Next(s, step), more, t, o);
  }
}
