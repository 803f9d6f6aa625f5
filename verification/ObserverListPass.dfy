/**
  src/base/observer_list_threadsafe.h: what one notification does to observers that are added while it is under way,
  and what it does when its thread is left alone.
*/
module ObserverListPasses {
  import opened Options
  import opened ObserverListsThreadSafe
  import opened ObserverListNotifications
  import R = ObserverListRemovals
  import L = ObserverLists

  // ---------------------------------------------------------------- the iterators are of the list's kind

  /** The iterator has a limit exactly under NOTIFY_EXISTING_ONLY, and its index is not beyond the slots. */
  predicate FrameKind(f: Frame, heap: map<Address, Context>, existingOnly: bool) {
    f.Iterating? || f.Calling? ==>
      f.ctx in heap && f.index <= |heap[f.ctx].slots| && (f.maxIndex.Some? <==> existingOnly)
  }

  predicate StackKind(stk: Stack, heap: map<Address, Context>, existingOnly: bool) {
    match stk
    case Bottom => true
    case Push(f, rest) => FrameKind(f, heap, existingOnly) && StackKind(rest, heap, existingOnly)
  }

  ghost predicate Kinds(s: State) {
    forall t :: t in s.stacks ==> StackKind(s.stacks[t], s.heap, s.existingOnly)
  }

  /** Contexts that are iterated over neither go away nor lose slots. */
  lemma {:induction false} KindKept(stk: Stack, heap: map<Address, Context>, heap': map<Address, Context>, only: bool)
    requires StackKind(stk, heap, only)
    requires forall c :: c in heap && Scopes(stk, c) > 0 ==> c in heap' && |heap[c].slots| <= |heap'[c].slots|
    ensures StackKind(stk, heap', only)
  {
    if stk.Push? {
      var f := stk.top;
      if f.Iterating? || f.Calling? { assert Scopes(stk, f.ctx) > 0; }
      forall c | c in heap && Scopes(stk.rest, c) > 0 ensures c in heap' && |heap[c].slots| <= |heap'[c].slots| {
        assert Scopes(stk, c) > 0;
      }
      KindKept(stk.rest, heap, heap', only);
    }
  }

  lemma {:induction false} GoKeepsSize(s: State, t: ThreadId, c: Address)
    requires Inv(s) && Enabled(s, Go(t)) && c in s.heap && Scopes(StackOf(s, t).rest, c) > 0
    ensures c in Next(s, Go(t)).heap && |s.heap[c].slots| <= |Next(s, Go(t)).heap[c].slots|
  {
    var f := StackOf(s, t).top;
    assert FramesOk(s.heap, StackOf(s, t), t);
    ScopedIsOwned(s.heap, StackOf(s, t), t, c);
    assert ContextOk(c, s.heap[c], Listed(s, c, t), StackOf(s, t));
  }

  lemma {:induction false} ScopedIsOwned(heap: map<Address, Context>, stk: Stack, t: ThreadId, c: Address)
    requires FramesOk(heap, stk, t) && Scopes(stk, c) > 0
    ensures c in heap && heap[c].owner == t
  {
    if Scopes(stk.rest, c) > 0 { ScopedIsOwned(heap, stk.rest, t, c); }
  }

  /** The frame that the step leaves on top. */
  lemma {:induction false} TopKind(s: State, t: ThreadId)
    requires Inv(s) && Enabled(s, Go(t)) && FrameKind(StackOf(s, t).top, s.heap, s.existingOnly)
    ensures var stk' := StackOf(Next(s, Go(t)), t);
      stk' == StackOf(s, t).rest || (
        stk'.Push? && stk'.rest == StackOf(s, t).rest && FrameKind(stk'.top, Next(s, Go(t)).heap, s.existingOnly))
  {
    GoStacks(s, t);
    assert FramesOk(s.heap, StackOf(s, t), t);
  }

  lemma {:induction false} GoKeepsKind(s: State, t: ThreadId)
    requires Inv(s) && Kinds(s) && Enabled(s, Go(t))
    ensures StackKind(StackOf(Next(s, Go(t)), t), Next(s, Go(t)).heap, s.existingOnly)
  {
    var stk, s' := StackOf(s, t), Next(s, Go(t));
    forall c | c in s.heap && Scopes(stk.rest, c) > 0 ensures c in s'.heap && |s.heap[c].slots| <= |s'.heap[c].slots| {
      GoKeepsSize(s, t, c);
    }
    KindKept(stk.rest, s.heap, s'.heap, s.existingOnly);
    TopKind(s, t);
  }

  lemma {:induction false} OthersKeepKind(s: State, step: Step, t: ThreadId)
    requires Inv(s) && Kinds(s) && Enabled(s, step) && step != Go(t) && t in Next(s, step).stacks && !step.Destroy?
    ensures StackKind(Next(s, step).stacks[t], Next(s, step).heap, s.existingOnly)
  {
    var stk, s' := StackOf(s, t), Next(s, step);
    forall c | c in s.heap && Scopes(stk, c) > 0 ensures c in s'.heap && |s.heap[c].slots| <= |s'.heap[c].slots| {
      ScopedIsOwned(s.heap, stk, t, c);
      OthersLeaveSlots(s, step, c, t);
    }
    KindKept(stk, s.heap, s'.heap, s.existingOnly);
    OtherStacks(s, step, t);
  }

  lemma {:induction false} NextKinds(s: State, step: Step)
    requires Inv(s) && Kinds(s) && Enabled(s, step)
    ensures Kinds(Next(s, step)) && Next(s, step).existingOnly == s.existingOnly
  {
    var s' := Next(s, step);
    forall t | t in s'.stacks ensures StackKind(s'.stacks[t], s'.heap, s'.existingOnly) {
      match step {
        case Destroy =>
        case _ => if step == Go(t) { GoKeepsKind(s, t); } else { OthersKeepKind(s, step, t); }
      }
    }
  }

  lemma {:induction false} RunKinds(s: State, steps: seq<Step>)
    requires Inv(s) && R.Tidy(s) && Kinds(s) && EnabledAll(s, steps)
    ensures Inv(Run(s, steps)) && R.Tidy(Run(s, steps)) && Kinds(Run(s, steps))
    ensures Run(s, steps).existingOnly == s.existingOnly
    decreases |steps|
  {
    if steps != [] {
      NextOk(s, steps[0]);
      R.NextTidy(s, steps[0]);
      NextKinds(s, steps[0]);
      RunKinds(Next(s, steps[0]), steps[1..]);
    }
  }

  lemma {:induction false} FrameIsOfKind(stk: Stack, rest: Stack, heap: map<Address, Context>, only: bool)
    requires StackKind(stk, heap, only) && FrameOver(stk, rest).Some?
    ensures FrameKind(FrameOver(stk, rest).value, heap, only)
  {
    if stk.rest != rest { FrameIsOfKind(stk.rest, rest, heap, only); }
  }

  lemma {:induction false} StartKinds(existingOnly: bool, steps: seq<Step>)
    requires EnabledAll(Start(existingOnly), steps)
    ensures var s := Run(Start(existingOnly), steps);
      Inv(s) && R.Tidy(s) && Kinds(s) && s.existingOnly == existingOnly
  {
    RunKinds(Start(existingOnly), steps);
  }

  // ---------------------------------------------------------------- observers that are added meanwhile

  /**
    Under NOTIFY_ALL, an observer that is added to the context of a notification while it is under way, and stays, is
    called by it once too.
  */
  lemma {:induction false} LateIsCalled(
      steps: seq<Step>, more: seq<Step>, t: ThreadId, rest: Stack, c: Address, o: L.Observer)
    requires EnabledAll(Start(false), steps) && Enabled(Run(Start(false), steps), Go(t))
    requires var s := Run(Start(false), steps);
      var f := FrameOver(StackOf(s, t), rest);
      && StackOf(s, t).top == Adding(c, o) && c in s.heap && Some(o) !in s.heap[c].slots
      && f.Some? && f.value.ctx == c && f.value.Calling?
    requires var s1 := Next(Run(Start(false), steps), Go(t));
      && EnabledAll(s1, more) && InPass(s1, more, t, rest) && NeverRemoves(s1, more, t, o)
      && FrameOver(StackOf(Run(s1, more), t), rest) == Some(Closing(c))
    ensures CallCount(Next(Run(Start(false), steps), Go(t)), more, t, rest, o) == 1
  {
    var s := Run(Start(false), steps);
    var s1 := Next(s, Go(t));
    StartKinds(false, steps);
    NextOk(s, Go(t));
    R.NextTidy(s, Go(t));
    assert FramesOk(s.heap, StackOf(s, t), t);
    FrameIsOfKind(StackOf(s, t), rest, s.heap, false);
    FrameKept(s, Go(t), t, rest);
    var j := |s.heap[c].slots|;
    assert Ahead(s1, t, rest, c, j, o);
    PassCalls(s1, more, t, rest, c, j, o);
  }

  /** The frame's iterator stops at slot m, and o is in none before it. */
  predicate OutOfReach(s: State, t: ThreadId, rest: Stack, c: Address, m: nat, o: L.Observer) {
    var f := FrameOver(StackOf(s, t), rest);
    && f.Some? && f.value.ctx == c && c in s.heap && s.heap[c].owner == t && m <= |s.heap[c].slots|
    && Some(o) !in s.heap[c].slots[..m]
    && (f.value.Entering? || InScope(f.value))
    && (f.value.Iterating? || f.value.Calling? ==> f.value.maxIndex == Some(m))
    && (f.value.Entering? ==> m == |s.heap[c].slots|)
  }

  lemma {:induction false} EditStaysOut(slots: L.Slots, depth: nat, p: L.Observer, m: nat, o: L.Observer)
    requires m <= |slots| && Some(o) !in slots[..m]
    ensures m <= |L.Added(slots, p)| && Some(o) !in L.Added(slots, p)[..m]
    ensures depth > 0 ==> m <= |L.Removed(slots, depth, p)| && Some(o) !in L.Removed(slots, depth, p)[..m]
  {
    var added, removed := L.Added(slots, p), L.Removed(slots, depth, p);
    assert added[..m] == slots[..m];
    if depth > 0 {
      forall i | 0 <= i < m ensures removed[..m][i] != Some(o) {
        assert slots[..m][i] != Some(o);
      }
    }
  }

  /** The slots of the context, through a step of its thread that leaves the frame where it is. */
  lemma {:induction false} GoStaysOut(s: State, t: ThreadId, rest: Stack, c: Address, m: nat, o: L.Observer)
    requires Inv(s) && Enabled(s, Go(t)) && OutOfReach(s, t, rest, c, m, o) && Working(FrameOver(StackOf(s, t), rest))
    requires StackOf(s, t).rest != rest || !StackOf(s, t).top.Entering?
    ensures var s' := Next(s, Go(t));
      c in s'.heap && s'.heap[c].owner == t && m <= |s'.heap[c].slots| && Some(o) !in s'.heap[c].slots[..m]
  {
    var f := StackOf(s, t).top;
    var x := s.heap[c];
    assert FramesOk(s.heap, StackOf(s, t), t);
    FrameFound(s.heap, StackOf(s, t), t, rest);
    assert ContextOk(c, x, Listed(s, c, t), StackOf(s, t));
    EditStaysOut(x.slots, x.depth, if f.Adding? || f.Removing? then f.obs else 0, m, o);
    if f.Closing? && f.ctx == c { StillOpen(s, t, rest, c); }
  }

  /** Closing an iterator above the frame leaves the frame's own one open. */
  lemma {:induction false} StillOpen(s: State, t: ThreadId, rest: Stack, c: Address)
    requires Inv(s) && Enabled(s, Go(t)) && StackOf(s, t).top == Closing(c) && c in s.heap && s.heap[c].owner == t
    requires StackOf(s, t).rest != rest && Working(FrameOver(StackOf(s, t), rest))
    requires FrameOver(StackOf(s, t), rest).value.ctx == c
    ensures s.heap[c].depth > 1
  {
    assert FramesOk(s.heap, StackOf(s, t), t);
    assert ContextOk(c, s.heap[c], Listed(s, c, t), StackOf(s, t));
    FrameFound(s.heap, StackOf(s, t).rest, t, rest);
    FrameFound(s.heap, StackOf(s, t), t, rest);
  }

  lemma {:induction false} OwnStaysOut(s: State, t: ThreadId, rest: Stack, c: Address, m: nat, o: L.Observer)
    requires Inv(s) && Enabled(s, Go(t)) && OutOfReach(s, t, rest, c, m, o) && s.existingOnly
    requires StackOf(s, t).rest == rest && Working(FrameOver(StackOf(s, t), rest))
    ensures OutOfReach(Next(s, Go(t)), t, rest, c, m, o) && !CallsFrom(s, Go(t), t, rest, o)
  {
    var f := StackOf(s, t).top;
    GoStacks(s, t);
    if f.Iterating? {
      var n := L.NextSlot(s.heap[c].slots, f.index, f.maxIndex);
      if n < L.Bound(s.heap[c].slots, f.maxIndex) {
        assert s.heap[c].slots[..m][n] == s.heap[c].slots[n];
      }
    }
  }

  lemma {:induction false} StepStaysOut(
      s: State, step: Step, t: ThreadId, rest: Stack, c: Address, m: nat, o: L.Observer)
    requires Inv(s) && Enabled(s, step) && OutOfReach(s, t, rest, c, m, o) && s.existingOnly
    requires Working(FrameOver(StackOf(s, t), rest))
    ensures OutOfReach(Next(s, step), t, rest, c, m, o) && !CallsFrom(s, step, t, rest, o)
  {
    if step == Go(t) && StackOf(s, t).rest == rest {
      OwnStaysOut(s, t, rest, c, m, o);
    } else {
      FrameKept(s, step, t, rest);
      if step == Go(t) {
        GoStaysOut(s, t, rest, c, m, o);
        FrameFound(s.heap, StackOf(s, t), t, rest);
      } else {
        OthersLeaveSlots(s, step, c, t);
      }
    }
  }

  lemma {:induction false} PassSkips(
      s: State, steps: seq<Step>, t: ThreadId, rest: Stack, c: Address, m: nat, o: L.Observer)
    requires Inv(s) && EnabledAll(s, steps) && s.existingOnly && InPass(s, steps, t, rest)
    requires OutOfReach(s, t, rest, c, m, o)
    ensures CallCount(s, steps, t, rest, o) == 0
    decreases |steps|
  {
    if steps != [] {
      StepStaysOut(s, steps[0], t, rest, c, m, o);
      NextOk(s, steps[0]);
      SameKind(s, steps[0]);
      PassSkips(Next(s, steps[0]), steps[1..], t, rest, c, m, o);
    }
  }

  lemma {:induction false} SameKind(s: State, step: Step)
    requires Enabled(s, step)
    ensures Next(s, step).existingOnly == s.existingOnly
  {
  }

  /** Under NOTIFY_EXISTING_ONLY, an observer that is not there when a task begins is not called by it at all. */
  lemma {:induction false} LateIsNotCalled(
      steps: seq<Step>, more: seq<Step>, t: ThreadId, a: Address, o: L.Observer)
    requires EnabledAll(Start(true), steps)
    requires var s := Run(Start(true), steps);
      Enabled(s, RunTask(t, a)) && Listed(s, a, t) && a in s.heap && Some(o) !in s.heap[a].slots
    requires var s := Run(Start(true), steps);
      EnabledAll(Next(s, RunTask(t, a)), more) && InPass(Next(s, RunTask(t, a)), more, t, StackOf(s, t))
    ensures var s := Run(Start(true), steps);
      CallCount(Next(s, RunTask(t, a)), more, t, StackOf(s, t), o) == 0
  {
    var s := Run(Start(true), steps);
    StartKinds(true, steps);
    NextOk(s, RunTask(t, a));
    PassSkips(Next(s, RunTask(t, a)), more, t, StackOf(s, t), a, |s.heap[a].slots|, o);
  }

  // ---------------------------------------------------------------- a thread that is left alone

  predicate OnlyGo(steps: seq<Step>, t: ThreadId) {
    forall i :: 0 <= i < |steps| ==> steps[i] == Go(t)
  }

  /** Whose callback the frame over rest enters with this step. */
  function CallOf(s: State, step: Step, t: ThreadId, rest: Stack): seq<L.Observer>
    requires Enabled(s, step)
  {
    var stk, stk' := StackOf(s, t), StackOf(Next(s, step), t);
    if step == Go(t) && stk.rest == rest && stk.top.Iterating? && stk'.Push? && stk'.top.Calling? then [stk'.top.obs]
    else []
  }

  /** The observers that the frame over rest calls, in order. */
  function CallsIn(s: State, steps: seq<Step>, t: ThreadId, rest: Stack): seq<L.Observer>
    requires EnabledAll(s, steps)
    decreases |steps|
  {
    if steps == [] then [] else CallOf(s, steps[0], t, rest) + CallsIn(Next(s, steps[0]), steps[1..], t, rest)
  }

  /** What is registered in the slots from index to the iterator's bound. */
  function ToCome(slots: L.Slots, index: nat, maxIndex: Option<nat>): seq<L.Observer> {
    var bound := L.Bound(slots, maxIndex);
    if index < bound then L.Registered(slots[index..bound]) else []
  }

  lemma {:induction false} NothingRegistered(slots: L.Slots)
    requires forall j :: 0 <= j < |slots| ==> slots[j].None?
    ensures L.Registered(slots) == []
  {
    L.RegisteredOfNones(|slots|);
    assert slots == L.AllNull(|slots|);
  }

  lemma {:induction false} FirstRegistered(slots: L.Slots, i: nat, n: nat, bound: nat)
    requires i <= n < bound <= |slots| && slots[n].Some? && forall j :: i <= j < n ==> slots[j].None?
    ensures L.Registered(slots[i..bound]) == [slots[n].value] + L.Registered(slots[n + 1..bound])
  {
    var pre, post := slots[i..n], slots[n + 1..bound];
    assert slots[i..bound] == pre + [slots[n]] + post;
    L.RegisteredSplit(pre, slots[n], post);
    NothingRegistered(pre);
  }

  lemma {:induction false} NextToCome(slots: L.Slots, index: nat, maxIndex: Option<nat>)
    ensures var n, bound := L.NextSlot(slots, index, maxIndex), L.Bound(slots, maxIndex);
      ToCome(slots, index, maxIndex) == if n < bound then [slots[n].value] + ToCome(slots, n + 1, maxIndex) else []
  {
    var n, bound := L.NextSlot(slots, index, maxIndex), L.Bound(slots, maxIndex);
    if n < bound {
      FirstRegistered(slots, index, n, bound);
      if n + 1 == bound { NothingRegistered(slots[n + 1..bound]); }
    } else if index < bound {
      NothingRegistered(slots[index..bound]);
    }
  }

  /** The frame after a step of the loop. */
  function LoopFrame(slots: L.Slots, f: Frame): Frame
    requires f.Iterating? || f.Calling?
  {
    var n := L.NextSlot(slots, f.index, f.maxIndex);
    if f.Calling? then Iterating(f.ctx, f.index, f.maxIndex)
    else if n < L.Bound(slots, f.maxIndex) then Calling(f.ctx, n + 1, f.maxIndex, slots[n].value)
    else Closing(f.ctx)
  }

  /** A step of the loop changes nothing but the frame. */
  lemma {:induction false} LoopStep(s: State, t: ThreadId, rest: Stack)
    requires Inv(s) && Enabled(s, Go(t)) && StackOf(s, t).rest == rest
    requires StackOf(s, t).top.Iterating? || StackOf(s, t).top.Calling?
    ensures var f := StackOf(s, t).top;
      && f.ctx in s.heap
      && Next(s, Go(t)) == SetStack(s, t, Push(LoopFrame(s.heap[f.ctx].slots, f), rest))
  {
    assert FramesOk(s.heap, StackOf(s, t), t);
  }

  /** How much of the loop is left to do. */
  function Distance(f: Frame, size: nat): nat
    requires f.Iterating? || f.Calling?
  {
    (if f.index <= size then 2 * (size - f.index) else 0) + (if f.Calling? then 1 else 0)
  }

  /** One more step at the front. */
  lemma {:induction false} GoFirst(s: State, t: ThreadId, rest: Stack, later: seq<Step>)
    requires Enabled(s, Go(t)) && OnlyGo(later, t) && EnabledAll(Next(s, Go(t)), later)
    ensures var more := [Go(t)] + later;
      && OnlyGo(more, t) && EnabledAll(s, more) && Run(s, more) == Run(Next(s, Go(t)), later)
      && CallsIn(s, more, t, rest) == CallOf(s, Go(t), t, rest) + CallsIn(Next(s, Go(t)), later, t, rest)
      && (InPass(s, more, t, rest)
        <==> Working(FrameOver(StackOf(s, t), rest)) && InPass(Next(s, Go(t)), later, t, rest))
  {
    var more := [Go(t)] + later;
    assert more[0] == Go(t) && more[1..] == later;
  }

  /** What the step calls, and what it leaves to come. */
  lemma {:induction false} LoopCalls(slots: L.Slots, f: Frame)
    requires f.Iterating? || f.Calling?
    ensures var f' := LoopFrame(slots, f);
      && f'.ctx == f.ctx
      && ToCome(slots, f.index, f.maxIndex) == (if f.Iterating? && f'.Calling? then [f'.obs] else [])
           + (if f'.Closing? then [] else ToCome(slots, f'.index, f'.maxIndex))
      && (!f'.Closing? ==> Distance(f', |slots|) < Distance(f, |slots|))
  {
    if f.Iterating? { NextToCome(slots, f.index, f.maxIndex); }
  }

  /** The frame over rest is f, on top, and the loop it is in has these observers to call. */
  predicate InLoop(s: State, t: ThreadId, rest: Stack, f: Frame, calls: seq<L.Observer>) {
    && StackOf(s, t) == Push(f, rest) && f.ctx in s.heap
    && if f.Iterating? || f.Calling? then calls == ToCome(s.heap[f.ctx].slots, f.index, f.maxIndex)
       else f.Closing? && calls == []
  }

  lemma {:induction false} LoopOnce(s: State, t: ThreadId, rest: Stack, f: Frame, calls: seq<L.Observer>)
    returns (f': Frame, later: seq<L.Observer>)
    requires Inv(s) && Enabled(s, Go(t)) && InLoop(s, t, rest, f, calls) && !f.Closing?
    ensures InLoop(Next(s, Go(t)), t, rest, f', later) && f'.ctx == f.ctx
    ensures Next(s, Go(t)) == SetStack(s, t, Push(f', rest)) && calls == CallOf(s, Go(t), t, rest) + later
    ensures !f'.Closing? ==> Distance(f', |s.heap[f.ctx].slots|) < Distance(f, |s.heap[f.ctx].slots|)
  {
    LoopStep(s, t, rest);
    LoopCalls(s.heap[f.ctx].slots, f);
    f' := LoopFrame(s.heap[f.ctx].slots, f);
    later := if f'.Closing? then [] else ToCome(s.heap[f.ctx].slots, f'.index, f'.maxIndex);
  }

  /** These steps of t alone bring the frame to its end and call these observers. */
  predicate Completes(s: State, t: ThreadId, rest: Stack, c: Address, more: seq<Step>, calls: seq<L.Observer>) {
    && OnlyGo(more, t) && EnabledAll(s, more) && InPass(s, more, t, rest)
    && Run(s, more) == SetStack(s, t, Push(Closing(c), rest)) && CallsIn(s, more, t, rest) == calls
  }

  lemma {:induction false} CompletesFirst(
      s: State, t: ThreadId, rest: Stack, f: Frame, later: seq<Step>, calls: seq<L.Observer>, c: Address)
    requires Enabled(s, Go(t)) && Working(FrameOver(StackOf(s, t), rest))
    requires Next(s, Go(t)) == SetStack(s, t, Push(f, rest)) && Completes(Next(s, Go(t)), t, rest, c, later, calls)
    ensures Completes(s, t, rest, c, [Go(t)] + later, CallOf(s, Go(t), t, rest) + calls)
  {
    GoFirst(s, t, rest, later);
    var end := Push(Closing(c), rest);
    assert s.stacks[t := Push(f, rest)][t := end] == s.stacks[t := end];
  }

  lemma {:induction false} LoopAlone(s: State, t: ThreadId, rest: Stack, f: Frame, calls: seq<L.Observer>)
    returns (more: seq<Step>)
    requires Inv(s) && InLoop(s, t, rest, f, calls) && !s.destroyed
    ensures Completes(s, t, rest, f.ctx, more, calls)
    decreases !f.Closing?, if f.Closing? then 0 else Distance(f, |s.heap[f.ctx].slots|)
  {
    more := [];
    if f.Closing? {
      assert s.stacks[t := StackOf(s, t)] == s.stacks;
    } else {
      var f', later := LoopOnce(s, t, rest, f, calls);
      NextOk(s, Go(t));
      more := LoopAlone(Next(s, Go(t)), t, rest, f', later);
      CompletesFirst(s, t, rest, f', more, later, f.ctx);
      more := [Go(t)] + more;
    }
  }

  /**
    A task that runs on its thread's listed context, and is not disturbed, calls the observers that are registered
    there, each once and in the order in which they were added.
  */
  lemma {:induction false} TaskAlone(existingOnly: bool, steps: seq<Step>, t: ThreadId, a: Address)
    returns (more: seq<Step>)
    requires EnabledAll(Start(existingOnly), steps)
    requires var s := Run(Start(existingOnly), steps); Enabled(s, RunTask(t, a)) && Listed(s, a, t)
    ensures var s := Run(Start(existingOnly), steps);
      var s1 := Next(s, RunTask(t, a));
      && a in s.heap && OnlyGo(more, t) && EnabledAll(s1, more) && InPass(s1, more, t, StackOf(s, t))
      && StackOf(Run(s1, more), t) == Push(Closing(a), StackOf(s, t))
      && CallsIn(s1, more, t, StackOf(s, t)) == L.Registered(s.heap[a].slots)
  {
    var s := Run(Start(existingOnly), steps);
    var s1 := Next(s, RunTask(t, a));
    RunOk(Start(existingOnly), steps);
    NextOk(s, RunTask(t, a));
    more := EntryAlone(s1, t, StackOf(s, t), a);
  }

  lemma {:induction false} EntryAlone(s: State, t: ThreadId, rest: Stack, c: Address) returns (more: seq<Step>)
    requires Inv(s) && StackOf(s, t) == Push(Entering(c), rest) && c in s.heap && !s.destroyed
    ensures OnlyGo(more, t) && EnabledAll(s, more) && InPass(s, more, t, rest)
    ensures StackOf(Run(s, more), t) == Push(Closing(c), rest)
    ensures CallsIn(s, more, t, rest) == L.Registered(s.heap[c].slots)
  {
    var s2 := Next(s, Go(t));
    var f := StackOf(s2, t).top;
    var slots := s.heap[c].slots;
    NextOk(s, Go(t));
    assert slots[0..|slots|] == slots && (slots == [] ==> L.Registered(slots) == []);
    assert InLoop(s2, t, rest, f, L.Registered(slots));
    more := LoopAlone(s2, t, rest, f, L.Registered(slots));
    assert OnlyGo(more, t) && EnabledAll(s2, more);
    GoFirst(s, t, rest, more);
    more := [Go(t)] + more;
    assert [] + L.Registered(slots) == L.Registered(slots);
  }

  /** And then it closes its iterator, and deletes and unlists the context if nothing is registered in it any more. */
  lemma {:induction false} EndAlone(s: State, t: ThreadId, rest: Stack, c: Address) returns (more: seq<Step>)
    requires Inv(s) && StackOf(s, t) == Push(Closing(c), rest) && c in s.heap && !s.destroyed
    ensures OnlyGo(more, t) && EnabledAll(s, more) && StackOf(Run(s, more), t) == rest
    ensures var s', x := Run(s, more), s.heap[c];
      if x.depth == 1 && L.Registered(x.slots) == [] then c !in s'.heap && !Listed(s', c, t)
      else c in s'.heap && s'.lists == s.lists && L.Registered(s'.heap[c].slots) == L.Registered(x.slots)
  {
    var s1 := Next(s, Go(t));
    NextOk(s, Go(t));
    ClosingLeaves(s, t, rest, c);
    more := LeavingAlone(s1, t, rest, c);
    GoFirst(s, t, rest, more);
    more := [Go(t)] + more;
  }

  lemma {:induction false} LeavingAlone(s: State, t: ThreadId, rest: Stack, c: Address) returns (more: seq<Step>)
    requires Enabled(s, Go(t)) && StackOf(s, t) == Push(Leaving(c), rest) && c in s.heap
    ensures OnlyGo(more, t) && EnabledAll(s, more) && StackOf(Run(s, more), t) == rest
    ensures var s' := Run(s, more);
      if s.heap[c].slots == [] then c !in s'.heap && !Listed(s', c, t)
      else c in s'.heap && s'.heap[c] == s.heap[c] && s'.lists == s.lists
  {
    var s1 := Next(s, Go(t));
    more := [];
    if s.heap[c].slots == [] {
      UnlistingDeletes(s1, t, rest, c);
      var s2 := Next(s1, Go(t));
      GoFirst(s2, t, rest, more);
      more := [Go(t)] + more;
      GoFirst(s1, t, rest, more);
      more := [Go(t)] + more;
    }
    GoFirst(s, t, rest, more);
    more := [Go(t)] + more;
  }

  lemma {:induction false} ClosingLeaves(s: State, t: ThreadId, rest: Stack, c: Address)
    requires Inv(s) && Enabled(s, Go(t)) && StackOf(s, t) == Push(Closing(c), rest) && c in s.heap
    ensures var s1, x := Next(s, Go(t)), s.heap[c];
      && StackOf(s1, t) == Push(Leaving(c), rest) && c in s1.heap && s1.lists == s.lists
      && L.Registered(s1.heap[c].slots) == L.Registered(x.slots)
      && (s1.heap[c].slots == [] <==> x.depth == 1 && L.Registered(x.slots) == [])
  {
    var x := s.heap[c];
    assert FramesOk(s.heap, StackOf(s, t), t);
    assert ContextOk(c, x, Listed(s, c, t), StackOf(s, t));
    L.RegisteredAllSome(L.Registered(x.slots));
  }

  lemma {:induction false} UnlistingDeletes(s: State, t: ThreadId, rest: Stack, c: Address)
    requires Enabled(s, Go(t)) && StackOf(s, t) == Push(Unlisting(c), rest) && c in s.heap
    ensures var s1 := Next(s, Go(t));
      && Enabled(s1, Go(t)) && StackOf(s1, t) == Push(Deleting(c), rest)
      && var s2 := Next(s1, Go(t)); StackOf(s2, t) == rest && c !in s2.heap && !Listed(s2, c, t)
  {
  }

  /** A task that its thread is not listed for, or under another context by now, does nothing. */
  lemma {:induction false} StaleTaskIsDropped(s: State, t: ThreadId, a: Address)
    requires Enabled(s, RunTask(t, a)) && !Listed(s, a, t)
    ensures Next(s, RunTask(t, a)) == s.(tasks := s.tasks - multiset{(t, a)})
  {
  }

  /** Notify posts nothing but one task for each listed context, and changes nothing else. */
  lemma {:induction false} NotifyPostsNothingElse(s: State, t: ThreadId, u: ThreadId, a: Address)
    requires Inv(s) && Enabled(s, Notify(t))
    ensures var s' := Next(s, Notify(t));
      && s'.tasks[(u, a)] == s.tasks[(u, a)] + (if Listed(s, a, u) then 1 else 0)
      && s' == s.(tasks := s'.tasks)
  {
    if Listed(s, a, u) { assert (u, a) in Posted(s); }
  }
}
