/**
  src/base/observer_list_threadsafe.h: what a call of AddObserver or RemoveObserver comes to.

  The state machine is the one of ObserverListsThreadSafe. A call takes two or three steps of its thread; the steps of
  other threads in between do not touch what it works on (OthersLeaveThread).
*/
module ObserverListCalls {
  import opened Options
  import opened ObserverListsThreadSafe
  import R = ObserverListRemovals
  import L = ObserverLists

  // ---------------------------------------------------------------- other threads

  /** Who takes the step; a task that is dropped is nobody's. */
  predicate TakenBy(step: Step, t: ThreadId) {
    match step
    case AddLock(u, _, _) => u == t
    case RemoveLock(u, _) => u == t
    case Notify(u) => u == t
    case RunTask(u, _) => u == t
    case DropTask(_, _) => false
    case Go(u) => u == t
    case Destroy => false
  }

  /** What thread t works on is the same: its stack, its place in the map and its contexts. */
  ghost predicate Untouched(s: State, s': State, t: ThreadId) {
    && StackOf(s', t) == StackOf(s, t) && (t in s'.lists <==> t in s.lists)
    && (t in s.lists ==> s'.lists[t] == s.lists[t])
    && forall c :: c in s.heap && s.heap[c].owner == t ==> c in s'.heap && s'.heap[c] == s.heap[c]
  }

  lemma {:induction false} GoLeavesThread(s: State, u: ThreadId, t: ThreadId)
    requires Inv(s) && Enabled(s, Go(u)) && u != t
    ensures Untouched(s, Next(s, Go(u)), t)
  {
    GoStacks(s, u);
    assert FramesOk(s.heap, StackOf(s, u), u);
  }

  lemma {:induction false} AddLeavesThread(s: State, u: ThreadId, o: L.Observer, room: Address, t: ThreadId)
    requires Enabled(s, AddLock(u, o, room)) && u != t
    ensures Untouched(s, Next(s, AddLock(u, o, room)), t)
  {
  }

  lemma {:induction false} RemoveLeavesThread(s: State, u: ThreadId, o: L.Observer, t: ThreadId)
    requires Enabled(s, RemoveLock(u, o)) && u != t
    ensures Untouched(s, Next(s, RemoveLock(u, o)), t)
  {
  }

  lemma {:induction false} TaskLeavesThread(s: State, u: ThreadId, a: Address, t: ThreadId)
    requires Enabled(s, RunTask(u, a)) && u != t
    ensures Untouched(s, Next(s, RunTask(u, a)), t)
  {
  }

  /** No other thread changes what a thread works on. */
  lemma {:induction false} OthersLeaveThread(s: State, step: Step, t: ThreadId)
    requires Inv(s) && Enabled(s, step) && !TakenBy(step, t) && !step.Destroy?
    ensures Untouched(s, Next(s, step), t)
  {
    match step {
      case Go(u) => GoLeavesThread(s, u, t);
      case AddLock(u, o, room) => AddLeavesThread(s, u, o, room, t);
      case RemoveLock(u, o) => RemoveLeavesThread(s, u, o, t);
      case RunTask(u, a) => TaskLeavesThread(s, u, a, t);
      case _ =>
    }
  }

  // ---------------------------------------------------------------- AddObserver

  /** Under the lock: the thread is listed, under a new empty context if it was not, and is about to add o there. */
  lemma {:induction false} AddStarts(s: State, t: ThreadId, o: L.Observer, room: Address)
    requires Inv(s) && Enabled(s, AddLock(t, o, room))
    ensures var s' := Next(s, AddLock(t, o, room));
      && t in s'.lists && StackOf(s', t) == Push(Adding(s'.lists[t], o), StackOf(s, t))
      && (if t in s.lists then s'.lists == s.lists && s'.heap == s.heap
          else s'.lists == s.lists[t := room] && s'.heap == s.heap[room := Context(t, [], 0)])
  {
  }

  /** After the lock: o is registered behind the observers that were there, unless it was one of them. */
  lemma {:induction false} AddEnds(s: State, t: ThreadId)
    requires Inv(s) && Enabled(s, Go(t)) && StackOf(s, t).top.Adding?
    ensures var s' := Next(s, Go(t));
      var c, o := StackOf(s, t).top.ctx, StackOf(s, t).top.obs;
      && Listed(s', c, t) && c in s.heap && c in s'.heap && StackOf(s', t) == StackOf(s, t).rest
      && var before := L.Registered(s.heap[c].slots);
         L.Registered(s'.heap[c].slots) == if o in before then before else before + [o]
  {
    var c := StackOf(s, t).top.ctx;
    assert FramesOk(s.heap, StackOf(s, t), t);
    assert ContextOk(c, s.heap[c], Listed(s, c, t), StackOf(s, t));
    L.RegisteredAdded(s.heap[c].slots, StackOf(s, t).top.obs);
  }

  /** The thread is listed and its context holds o, and it is not in the middle of removing it. */
  predicate Held(s: State, t: ThreadId, o: L.Observer) {
    && t in s.lists && s.lists[t] in s.heap && Some(o) in s.heap[s.lists[t]].slots
    && (StackOf(s, t).Push? && StackOf(s, t).top.Removing? ==> StackOf(s, t).top.obs != o)
  }

  lemma {:induction false} EditsKeep(slots: L.Slots, depth: nat, p: L.Observer, o: L.Observer)
    requires Some(o) in slots
    ensures Some(o) in L.Added(slots, p)
    ensures p != o ==> Some(o) in L.Removed(slots, depth, p)
    ensures Some(o) in L.Compacted(slots)
  {
    RemovedKeeps(slots, depth, p, o);
    assert o in L.Registered(slots);
    var j :| 0 <= j < |L.Registered(slots)| && L.Registered(slots)[j] == o;
    assert L.Compacted(slots)[j] == Some(o);
  }

  lemma {:induction false} RemovedKeeps(slots: L.Slots, depth: nat, p: L.Observer, o: L.Observer)
    requires Some(o) in slots
    ensures p != o ==> Some(o) in L.Removed(slots, depth, p)
  {
    var j :| 0 <= j < |slots| && slots[j] == Some(o);
    var i := L.Find(slots, p);
    if p != o && i < |slots| {
      var r := L.Removed(slots, depth, p);
      if depth > 0 || j < i { assert r[j] == Some(o); } else { assert r[j - 1] == Some(o); }
    }
  }

  /** The step of the thread itself, inside its calls and notifications. */
  lemma {:induction false} GoKeepsHeld(s: State, t: ThreadId, o: L.Observer)
    requires Inv(s) && Enabled(s, Go(t)) && Held(s, t, o)
    ensures Held(Next(s, Go(t)), t, o)
  {
    var f, c := StackOf(s, t).top, s.lists[t];
    assert FramesOk(s.heap, StackOf(s, t), t);
    assert ContextOk(c, s.heap[c], true, StackOf(s, t));
    EditsKeep(s.heap[c].slots, s.heap[c].depth, if f.Adding? || f.Removing? then f.obs else o + 1, o);
    GoStacks(s, t);
  }

  lemma {:induction false} CallsKeepHeld(s: State, step: Step, t: ThreadId, o: L.Observer)
    requires Inv(s) && Enabled(s, step) && Held(s, t, o) && TakenBy(step, t) && !step.Go? && step != RemoveLock(t, o)
    ensures Held(Next(s, step), t, o)
  {
    if step.RemoveLock? {
      var slots := s.heap[s.lists[t]].slots;
      assert |slots| == 1 ==> slots == [Some(o)];
    }
  }

  lemma {:induction false} StepKeepsHeld(s: State, step: Step, t: ThreadId, o: L.Observer)
    requires Inv(s) && Enabled(s, step) && Held(s, t, o) && step != RemoveLock(t, o) && !step.Destroy?
    ensures Held(Next(s, step), t, o)
  {
    if step == Go(t) {
      GoKeepsHeld(s, t, o);
    } else if TakenBy(step, t) {
      CallsKeepHeld(s, step, t, o);
    } else {
      OthersLeaveThread(s, step, t);
    }
  }

  lemma {:induction false} RunKeepsHeld(s: State, steps: seq<Step>, t: ThreadId, o: L.Observer)
    requires Inv(s) && EnabledAll(s, steps) && Held(s, t, o)
    requires RemoveLock(t, o) !in steps && Destroy !in steps
    ensures Inv(Run(s, steps)) && Held(Run(s, steps), t, o)
    decreases |steps|
  {
    if steps != [] {
      assert steps[0] in steps;
      StepKeepsHeld(s, steps[0], t, o);
      NextOk(s, steps[0]);
      RunKeepsHeld(Next(s, steps[0]), steps[1..], t, o);
    }
  }

  /**
    An observer that was added stays in its thread's listed context, whatever all threads do and however many
    notifications come and go, until the thread calls RemoveObserver for it.
  */
  lemma {:induction false} AddedStays(
      existingOnly: bool, steps: seq<Step>, more: seq<Step>, t: ThreadId, c: Address, o: L.Observer)
    requires EnabledAll(Start(existingOnly), steps) && Enabled(Run(Start(existingOnly), steps), Go(t))
    requires StackOf(Run(Start(existingOnly), steps), t).top == Adding(c, o)
    requires EnabledAll(Next(Run(Start(existingOnly), steps), Go(t)), more)
    requires RemoveLock(t, o) !in more && Destroy !in more
    ensures var s' := Run(Next(Run(Start(existingOnly), steps), Go(t)), more);
      t in s'.lists && s'.lists[t] in s'.heap && Some(o) in s'.heap[s'.lists[t]].slots
  {
    var s := Run(Start(existingOnly), steps);
    RunOk(Start(existingOnly), steps);
    NextOk(s, Go(t));
    AddEnds(s, t);
    assert FramesOk(s.heap, StackOf(s, t), t);
    assert o in L.Registered(Next(s, Go(t)).heap[c].slots);
    RunKeepsHeld(Next(s, Go(t)), more, t, o);
  }

  // ---------------------------------------------------------------- RemoveObserver

  /** Under the lock: a thread that is listed is about to remove o; its context is unlisted if o is all it holds. */
  lemma {:induction false} RemoveStarts(s: State, t: ThreadId, o: L.Observer)
    requires Inv(s) && Enabled(s, RemoveLock(t, o))
    ensures var s' := Next(s, RemoveLock(t, o));
      if t in s.lists then
        && StackOf(s', t) == Push(Removing(s.lists[t], o), StackOf(s, t)) && s'.heap == s.heap
        && s'.lists == if s.heap[s.lists[t]].slots == [Some(o)] then s.lists - {t} else s.lists
      else s' == s
  {
    if t in s.lists {
      var slots := s.heap[s.lists[t]].slots;
      assert |slots| == 1 ==> slots == [slots[0]];
    }
  }

  /** After the lock: o is taken out of the registered observers and the others stay in order. */
  lemma {:induction false} RemoveGoesOn(s: State, t: ThreadId)
    requires Inv(s) && R.Tidy(s) && Enabled(s, Go(t)) && StackOf(s, t).top.Removing?
    ensures var s' := Next(s, Go(t));
      var c, o := StackOf(s, t).top.ctx, StackOf(s, t).top.obs;
      && c in s.heap && c in s'.heap && StackOf(s', t) == Push(Checking(c), StackOf(s, t).rest)
      && L.Registered(s'.heap[c].slots) == L.Without(L.Registered(s.heap[c].slots), o)
  {
    var f := StackOf(s, t).top;
    assert FramesOk(s.heap, StackOf(s, t), t);
    L.RegisteredRemoved(s.heap[f.ctx].slots, s.heap[f.ctx].depth, f.obs);
  }

  /** At last: a context that nothing is left in is deleted, unlisted, and the call returns. */
  lemma {:induction false} RemoveEnds(s: State, t: ThreadId)
    requires Inv(s) && Enabled(s, Go(t)) && StackOf(s, t).top.Checking?
    ensures var s' := Next(s, Go(t));
      var c := StackOf(s, t).top.ctx;
      && c in s.heap && StackOf(s', t) == StackOf(s, t).rest && s'.lists == s.lists
      && (if s.heap[c].slots == [] then s'.heap == s.heap - {c} && !Listed(s, c, t) else s'.heap == s.heap)
  {
    var c := StackOf(s, t).top.ctx;
    assert FramesOk(s.heap, StackOf(s, t), t);
    assert ContextOk(c, s.heap[c], Listed(s, c, t), StackOf(s, t));
  }
}
