/**
  src/base/observer_list_threadsafe.h: a notification calls every observer that stays registered, once.

  The state machine is the one of ObserverListsThreadSafe. A task works in one frame of its thread's stack, over
  whatever was below it when it began; callbacks may put anything on top of that frame in between.
*/
module ObserverListNotifications {
  import opened Options
  import opened ObserverListsThreadSafe
  import R = ObserverListRemovals
  import L = ObserverLists

  // ---------------------------------------------------------------- one frame through a run

  function Height(stk: Stack): nat {
    match stk
    case Bottom => 0
    case Push(_, below) => Height(below) + 1
  }

  /** The frame that stands directly on rest. */
  function FrameOver(stk: Stack, rest: Stack): (f: Option<Frame>)
    ensures f.Some? ==> Height(stk) > Height(rest)
  {
    match stk
    case Bottom => None
    case Push(top, below) => if below == rest then Some(top) else FrameOver(below, rest)
  }

  /** A frame of a task that has not come to the end of the observers. */
  predicate Working(f: Option<Frame>) {
    f.Some? && (f.value.Entering? || f.value.Iterating? || f.value.Calling?)
  }

  /** The frame's context lives and belongs to the thread; only the frame on top is not in a callback. */
  lemma {:induction false} FrameFound(heap: map<Address, Context>, stk: Stack, t: ThreadId, rest: Stack)
    requires FramesOk(heap, stk, t) && FrameOver(stk, rest).Some?
    ensures var f := FrameOver(stk, rest).value;
      && f.ctx in heap && heap[f.ctx].owner == t
      && (InScope(f) ==> Scopes(stk, f.ctx) > 0)
      && (stk.rest != rest ==> CanCall(stk.rest) && f.Calling?)
  {
    if stk.rest != rest {
      FrameFound(heap, stk.rest, t, rest);
    }
  }

  lemma {:induction false} FrameKept(s: State, step: Step, t: ThreadId, rest: Stack)
    requires Inv(s) && Enabled(s, step) && FrameOver(StackOf(s, t), rest).Some?
    requires step == Go(t) ==> StackOf(s, t).rest != rest
    ensures FrameOver(StackOf(Next(s, step), t), rest) == FrameOver(StackOf(s, t), rest)
  {
    var stk, stk' := StackOf(s, t), StackOf(Next(s, step), t);
    if step == Go(t) {
      GoStacks(s, t);
    } else if t in Next(s, step).stacks {
      OtherStacks(s, step, t);
    }
  }

  // ---------------------------------------------------------------- one observer's slot

  predicate RemovesHere(s: State, step: Step, t: ThreadId, o: L.Observer)
    requires Enabled(s, step)
  {
    step == Go(t) && StackOf(s, t).top.Removing? && StackOf(s, t).top.obs == o
  }

  predicate Holds(s: State, c: Address, t: ThreadId, j: nat, o: L.Observer) {
    c in s.heap && s.heap[c].owner == t && j < |s.heap[c].slots| && s.heap[c].slots[j] == Some(o)
  }

  lemma {:induction false} OthersLeaveSlots(s: State, step: Step, c: Address, t: ThreadId)
    requires Inv(s) && Enabled(s, step) && step != Go(t) && c in s.heap && s.heap[c].owner == t && !step.Destroy?
    ensures c in Next(s, step).heap && Next(s, step).heap[c] == s.heap[c]
  {
    match step {
      case Go(u) =>
        assert FramesOk(s.heap, StackOf(s, u), u);
        GoLeavesOthers(s, u, c);
      case _ =>
    }
  }

  lemma {:induction false} GoLeavesOthers(s: State, u: ThreadId, c: Address)
    requires Enabled(s, Go(u)) && FramesOk(s.heap, StackOf(s, u), u) && c in s.heap && s.heap[c].owner != u
    ensures c in Next(s, Go(u)).heap && Next(s, Go(u)).heap[c] == s.heap[c]
  {
  }

  lemma {:induction false} EditKeepsSlot(slots: L.Slots, depth: nat, p: L.Observer, j: nat, o: L.Observer)
    requires j < |slots| && slots[j] == Some(o)
    ensures j < |L.Added(slots, p)| && L.Added(slots, p)[j] == Some(o)
    ensures depth > 0 && p != o ==> j < |L.Removed(slots, depth, p)| && L.Removed(slots, depth, p)[j] == Some(o)
  {
  }

  /** During an iteration on its context, only being removed takes an observer out of its slot. */
  lemma {:induction false} GoKeepsSlot(s: State, t: ThreadId, c: Address, j: nat, o: L.Observer)
    requires Inv(s) && Enabled(s, Go(t)) && Holds(s, c, t, j, o) && !RemovesHere(s, Go(t), t, o)
    requires c in Next(s, Go(t)).heap
    requires StackOf(s, t).top.Entering? || (s.heap[c].depth > 0 && Next(s, Go(t)).heap[c].depth > 0)
    ensures Holds(Next(s, Go(t)), c, t, j, o)
  {
    var f := StackOf(s, t).top;
    assert FramesOk(s.heap, StackOf(s, t), t);
    if f.ctx == c {
      EditKeepsSlot(s.heap[c].slots, s.heap[c].depth, if f.Adding? || f.Removing? then f.obs else 0, j, o);
    }
  }

  // ---------------------------------------------------------------- the pass of one task

  /** The frame over rest is to come to slot j, which holds o. */
  predicate Ahead(s: State, t: ThreadId, rest: Stack, c: Address, j: nat, o: L.Observer) {
    var f := FrameOver(StackOf(s, t), rest);
    && Holds(s, c, t, j, o) && Working(f) && f.value.ctx == c
    && (!f.value.Entering? ==> f.value.index <= j && (f.value.maxIndex.Some? ==> j < f.value.maxIndex.value))
  }

  /** The frame over rest is behind slot j, which holds o. */
  predicate Behind(s: State, t: ThreadId, rest: Stack, c: Address, j: nat, o: L.Observer) {
    var f := FrameOver(StackOf(s, t), rest);
    && Holds(s, c, t, j, o) && f.Some? && f.value.ctx == c
    && (f.value.Closing? || ((f.value.Iterating? || f.value.Calling?) && f.value.index > j))
  }

  /** The step at which the frame over rest enters o's callback. */
  predicate CallsFrom(s: State, step: Step, t: ThreadId, rest: Stack, o: L.Observer)
    requires Enabled(s, step)
  {
    R.Calls(s, step, t, o) && StackOf(s, t).rest == rest
  }

  lemma {:induction false} KeptHolds(s: State, step: Step, t: ThreadId, rest: Stack, c: Address, j: nat, o: L.Observer)
    requires Inv(s) && Enabled(s, step) && Inv(Next(s, step)) && Holds(s, c, t, j, o) && !RemovesHere(s, step, t, o)
    requires var f, f' := FrameOver(StackOf(s, t), rest), FrameOver(StackOf(Next(s, step), t), rest);
      f.Some? && f.value.ctx == c && f'.Some? && f'.value.ctx == c && (f.value.Entering? || InScope(f.value))
        && (f'.value.Entering? || InScope(f'.value))
    ensures Holds(Next(s, step), c, t, j, o)
  {
    var s' := Next(s, step);
    assert FramesOk(s.heap, StackOf(s, t), t) && FramesOk(s'.heap, StackOf(s', t), t);
    FrameFound(s.heap, StackOf(s, t), t, rest);
    FrameFound(s'.heap, StackOf(s', t), t, rest);
    if step == Go(t) {
      assert ContextOk(c, s.heap[c], Listed(s, c, t), StackOf(s, t));
      assert ContextOk(c, s'.heap[c], Listed(s', c, t), StackOf(s', t));
      GoKeepsSlot(s, t, c, j, o);
    } else {
      OthersLeaveSlots(s, step, c, t);
    }
  }

  /** What GetNext makes of a slot ahead, in a list without duplicates. */
  lemma {:induction false} NextIsNoLater(slots: L.Slots, index: nat, maxIndex: Option<nat>, j: nat, o: L.Observer)
    requires L.NoDuplicates(slots) && j < |slots| && slots[j] == Some(o)
    ensures var n := L.NextSlot(slots, index, maxIndex);
      && (index <= j < L.Bound(slots, maxIndex) ==> n <= j)
      && (index > j ==> n > j)
      && (n < L.Bound(slots, maxIndex) ==> (slots[n] == Some(o) <==> n == j))
  {
  }

  /** A step of the frame itself, on top of the stack. */
  lemma {:induction false} OwnStep(s: State, t: ThreadId, rest: Stack, c: Address, j: nat, o: L.Observer)
    requires Inv(s) && R.Tidy(s) && Enabled(s, Go(t)) && StackOf(s, t).rest == rest
    requires Working(FrameOver(StackOf(s, t), rest)) && Holds(s, c, t, j, o)
    requires Ahead(s, t, rest, c, j, o) || Behind(s, t, rest, c, j, o)
    ensures var f' := FrameOver(StackOf(Next(s, Go(t)), t), rest);
      && f'.Some? && f'.value.ctx == c && InScope(f'.value)
      && (CallsFrom(s, Go(t), t, rest, o) ==> Ahead(s, t, rest, c, j, o))
      && (f'.value.Closing? ==> Behind(s, t, rest, c, j, o))
      && (!f'.value.Closing? ==>
        if Ahead(s, t, rest, c, j, o) && !CallsFrom(s, Go(t), t, rest, o)
        then f'.value.index <= j && (f'.value.maxIndex.Some? ==> j < f'.value.maxIndex.value)
        else f'.value.index > j)
  {
    var f := StackOf(s, t).top;
    GoStacks(s, t);
    if f.Iterating? {
      NextIsNoLater(s.heap[c].slots, f.index, f.maxIndex, j, o);
    }
  }

  /** One step: either the frame calls o now and is then behind its slot, or it stays on its side of it. */
  lemma {:induction false} PassStep(s: State, step: Step, t: ThreadId, rest: Stack, c: Address, j: nat, o: L.Observer)
    requires Inv(s) && R.Tidy(s) && Enabled(s, step) && Working(FrameOver(StackOf(s, t), rest))
    requires !RemovesHere(s, step, t, o)
    requires Ahead(s, t, rest, c, j, o) || Behind(s, t, rest, c, j, o)
    ensures var s' := Next(s, step);
      && (CallsFrom(s, step, t, rest, o) ==> Ahead(s, t, rest, c, j, o))
      && (if Ahead(s, t, rest, c, j, o) && !CallsFrom(s, step, t, rest, o) then Ahead(s', t, rest, c, j, o)
          else Behind(s', t, rest, c, j, o))
  {
    NextOk(s, step);
    if step == Go(t) && StackOf(s, t).rest == rest {
      OwnStep(s, t, rest, c, j, o);
    } else {
      FrameKept(s, step, t, rest);
    }
    KeptHolds(s, step, t, rest, c, j, o);
  }

  /** The frame over rest is at work before every step. */
  predicate InPass(s: State, steps: seq<Step>, t: ThreadId, rest: Stack)
    requires EnabledAll(s, steps)
    decreases |steps|
  {
    steps == [] || (Working(FrameOver(StackOf(s, t), rest)) && InPass(Next(s, steps[0]), steps[1..], t, rest))
  }

  predicate NeverRemoves(s: State, steps: seq<Step>, t: ThreadId, o: L.Observer)
    requires EnabledAll(s, steps)
    decreases |steps|
  {
    steps == [] || (!RemovesHere(s, steps[0], t, o) && NeverRemoves(Next(s, steps[0]), steps[1..], t, o))
  }

  /** How often the frame over rest enters o's callback. */
  function CallCount(s: State, steps: seq<Step>, t: ThreadId, rest: Stack, o: L.Observer): nat
    requires EnabledAll(s, steps)
    decreases |steps|
  {
    if steps == [] then 0
    else (if CallsFrom(s, steps[0], t, rest, o) then 1 else 0) + CallCount(Next(s, steps[0]), steps[1..], t, rest, o)
  }

  /** From any point of a pass to its end, an observer that stays is called once if it is ahead, else never. */
  lemma {:induction false} PassCalls(
      s: State, steps: seq<Step>, t: ThreadId, rest: Stack, c: Address, j: nat, o: L.Observer)
    requires Inv(s) && R.Tidy(s) && EnabledAll(s, steps)
    requires InPass(s, steps, t, rest) && NeverRemoves(s, steps, t, o)
    requires Ahead(s, t, rest, c, j, o) || Behind(s, t, rest, c, j, o)
    requires FrameOver(StackOf(Run(s, steps), t), rest) == Some(Closing(c))
    ensures CallCount(s, steps, t, rest, o) == if Ahead(s, t, rest, c, j, o) then 1 else 0
    decreases |steps|
  {
    if steps != [] {
      PassStep(s, steps[0], t, rest, c, j, o);
      NextOk(s, steps[0]);
      R.NextTidy(s, steps[0]);
      PassCalls(Next(s, steps[0]), steps[1..], t, rest, c, j, o);
    }
  }

  /**
    A task that runs on its thread's listed context calls every observer registered there exactly once before it
    closes its iterator, whatever else all threads and its own callbacks do, unless the thread removes the observer.
  */
  lemma {:induction false} NotifiedOnce(
      existingOnly: bool, steps: seq<Step>, more: seq<Step>, t: ThreadId, a: Address, o: L.Observer)
    requires EnabledAll(Start(existingOnly), steps)
    requires var s := Run(Start(existingOnly), steps);
      Enabled(s, RunTask(t, a)) && Listed(s, a, t) && a in s.heap && Some(o) in s.heap[a].slots
    requires var s := Run(Start(existingOnly), steps);
      var s1 := Next(s, RunTask(t, a));
      var rest := StackOf(s, t);
      && EnabledAll(s1, more) && InPass(s1, more, t, rest) && NeverRemoves(s1, more, t, o)
      && StackOf(Run(s1, more), t) == Push(Closing(a), rest)
    ensures var s := Run(Start(existingOnly), steps);
      CallCount(Next(s, RunTask(t, a)), more, t, StackOf(s, t), o) == 1
  {
    var s := Run(Start(existingOnly), steps);
    R.RunTidy(Start(existingOnly), steps);
    NextOk(s, RunTask(t, a));
    R.NextTidy(s, RunTask(t, a));
    var j :| 0 <= j < |s.heap[a].slots| && s.heap[a].slots[j] == Some(o);
    PassCalls(Next(s, RunTask(t, a)), more, t, StackOf(s, t), a, j, o);
  }

  /** Notify posts a task for every listed context, to its own thread. */
  lemma {:induction false} NotifyReachesAll(existingOnly: bool, steps: seq<Step>, t: ThreadId, u: ThreadId)
    requires EnabledAll(Start(existingOnly), steps)
    requires var s := Run(Start(existingOnly), steps); Enabled(s, Notify(t)) && u in s.lists
    ensures var s := Run(Start(existingOnly), steps);
      var s' := Next(s, Notify(t));
      && (u, s.lists[u]) in s'.tasks && s'.lists == s.lists
      && s'.tasks[(u, s.lists[u])] == s.tasks[(u, s.lists[u])] + 1
  {
    var s := Run(Start(existingOnly), steps);
    RunOk(Start(existingOnly), steps);
    assert At(s, s.lists[u]).owner == u;
    assert (u, s.lists[u]) in Posted(s);
  }
}
