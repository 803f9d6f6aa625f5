/**
  src/base/observer_list_threadsafe.h: observer lists per thread, with hand-managed contexts.

  A transition system. Every region under list_lock_, every unlocked access to a context, every posted task and
  every callback boundary is one step, so a run is any interleaving of any number of threads; an observer's
  callback may itself call AddObserver, RemoveObserver and Notify or run a nested message loop.
  Contexts live at addresses; a freed address may be handed out again by a later allocation, so a task that was
  posted earlier can carry a pointer to a context that is gone, or to another context at the same address.
*/
module ObserverListsThreadSafe {
  import opened Options
  import L = ObserverLists

  type ThreadId = nat
  type Address = nat

  datatype Context = Context(owner: ThreadId, slots: L.Slots, depth: nat)

  /** Where a thread stands inside one of the list's methods. */
  datatype Frame =
    | Adding(ctx: Address, obs: L.Observer)    // AddObserver, lock released
    | Removing(ctx: Address, obs: L.Observer)  // RemoveObserver, lock released
    | Checking(ctx: Address)                   // RemoveObserver, before testing for size 0
    | Entering(ctx: Address)                   // NotifyWrapper, first lock released
    | Iterating(ctx: Address, index: nat, maxIndex: Option<nat>)
    | Calling(ctx: Address, index: nat, maxIndex: Option<nat>, obs: L.Observer)  // inside the observer
    | Closing(ctx: Address)                    // before the iterator's destructor
    | Leaving(ctx: Address)                    // before testing for size 0
    | Unlisting(ctx: Address)                  // before the second lock
    | Deleting(ctx: Address)                   // before delete context

  datatype Stack = Bottom | Push(top: Frame, rest: Stack)

  datatype State = State(
    lists: map<ThreadId, Address>,
    heap: map<Address, Context>,
    stacks: map<ThreadId, Stack>,
    tasks: multiset<(ThreadId, Address)>,
    existingOnly: bool,
    added: set<(ThreadId, L.Observer)>,  // which thread ever added which observer
    fault: bool,                         // a context was used or deleted while not alive
    destroyed: bool)

  datatype Step =
    | AddLock(t: ThreadId, obs: L.Observer, room: Address)
    | RemoveLock(t: ThreadId, obs: L.Observer)
    | Notify(t: ThreadId)
    | RunTask(t: ThreadId, a: Address)
    | DropTask(t: ThreadId, a: Address)
    | Go(t: ThreadId)
    | Destroy

  function StackOf(s: State, t: ThreadId): Stack {
    if t in s.stacks then s.stacks[t] else Bottom
  }

  /** A thread can start a call, or a message loop can run a task, at its base or inside a callback. */
  predicate CanCall(stk: Stack) {
    stk.Push? ==> stk.top.Calling?
  }

  predicate Enabled(s: State, step: Step) {
    && !s.destroyed
    && match step
       case AddLock(t, _, room) => CanCall(StackOf(s, t)) && room !in s.heap
       case RemoveLock(t, _) => CanCall(StackOf(s, t))
       case Notify(t) => CanCall(StackOf(s, t))
       case RunTask(t, a) => CanCall(StackOf(s, t)) && (t, a) in s.tasks
       case DropTask(t, a) => (t, a) in s.tasks
       case Go(t) => StackOf(s, t).Push?
       // The last reference is gone: calls in progress and posted tasks hold one.
       case Destroy => s.tasks == multiset{} && forall t :: t in s.stacks ==> s.stacks[t].Bottom?
  }

  // ---------------------------------------------------------------- memory

  function At(s: State, a: Address): Context {
    if a in s.heap then s.heap[a] else Context(0, [], 0)
  }

  function Use(s: State, a: Address): State {
    s.(fault := s.fault || a !in s.heap)
  }

  function Store(s: State, a: Address, x: Context): State {
    Use(s, a).(heap := if a in s.heap then s.heap[a := x] else s.heap)
  }

  function Free(s: State, a: Address): State {
    Use(s, a).(heap := s.heap - {a})
  }

  function SetStack(s: State, t: ThreadId, stk: Stack): State {
    s.(stacks := s.stacks[t := stk])
  }

  function PushFrame(s: State, t: ThreadId, f: Frame): State {
    SetStack(s, t, Push(f, StackOf(s, t)))
  }

  // ---------------------------------------------------------------- steps

  function Posted(s: State): set<(ThreadId, Address)> {
    set t | t in s.lists :: (At(s, s.lists[t]).owner, s.lists[t])
  }

  /** What the next action of t's top frame does outside the stack. */
  function Effect(s: State, t: ThreadId, f: Frame): (r: State)
    ensures r.stacks == s.stacks && r.tasks == s.tasks && s.added <= r.added && r.destroyed == s.destroyed
  {
    var x := At(s, f.ctx);
    match f
    case Adding(c, o) => Store(s, c, x.(slots := L.Added(x.slots, o))).(added := s.added + {(t, o)})
    case Removing(c, o) => Store(s, c, x.(slots := L.Removed(x.slots, x.depth, o)))
    case Checking(c) => if x.slots == [] then Free(s, c) else Use(s, c)
    case Entering(c) => Store(s, c, x.(depth := x.depth + 1))
    case Iterating(c, _, _) => Use(s, c)
    case Calling(_, _, _, _) => s
    case Closing(c) =>
      var depth := if x.depth > 0 then x.depth - 1 else 0;
      var slots := if depth == 0 then L.Compacted(x.slots) else x.slots;
      Store(s, c, x.(depth := depth, slots := slots))
    case Leaving(c) => Use(s, c)
    case Unlisting(c) =>
      if t in s.lists && s.lists[t] == c then s.(lists := s.lists - {t}) else s
    case Deleting(c) => Free(s, c)
  }

  /** Where that action leaves the thread. */
  function Continue(s: State, f: Frame, rest: Stack): Stack {
    var x := At(s, f.ctx);
    match f
    case Adding(_, _) => rest
    case Removing(c, _) => Push(Checking(c), rest)
    case Checking(_) => rest
    case Entering(c) => Push(Iterating(c, 0, if s.existingOnly then Some(|x.slots|) else None), rest)
    case Iterating(c, i, max) =>
      var n := L.NextSlot(x.slots, i, max);
      Push(if n < L.Bound(x.slots, max) then Calling(c, n + 1, max, x.slots[n].value) else Closing(c), rest)
    case Calling(c, i, max, _) => Push(Iterating(c, i, max), rest)
    case Closing(c) => Push(Leaving(c), rest)
    case Leaving(c) => if x.slots == [] then Push(Unlisting(c), rest) else rest
    case Unlisting(c) => Push(Deleting(c), rest)
    case Deleting(_) => rest
  }

  function Resume(s: State, t: ThreadId, f: Frame, rest: Stack): State {
    SetStack(Effect(s, t, f), t, Continue(s, f, rest))
  }

  function Next(s: State, step: Step): State
    requires Enabled(s, step)
  {
    match step
    case AddLock(t, o, room) =>
      if t in s.lists then PushFrame(s, t, Adding(s.lists[t], o))
      else
        var s1 := s.(heap := s.heap[room := Context(t, [], 0)], lists := s.lists[t := room]);
        PushFrame(s1, t, Adding(room, o))
    case RemoveLock(t, o) =>
      if t !in s.lists then s
      else
        var c := s.lists[t];
        var x := At(s, c);
        var lists := if Some(o) in x.slots && |x.slots| == 1 then s.lists - {t} else s.lists;
        PushFrame(Use(s, c).(lists := lists), t, Removing(c, o))
    case Notify(t) =>
      s.(fault := s.fault || !(s.lists.Values <= s.heap.Keys), tasks := s.tasks + multiset(Posted(s)))
    case RunTask(t, a) =>
      var s1 := s.(tasks := s.tasks - multiset{(t, a)});
      if t in s.lists && s.lists[t] == a then PushFrame(s1, t, Entering(a)) else s1
    case DropTask(t, a) => s.(tasks := s.tasks - multiset{(t, a)})
    case Go(t) => Resume(s, t, StackOf(s, t).top, StackOf(s, t).rest)
    case Destroy =>
      var twice := exists t, u :: t in s.lists && u in s.lists && t != u && s.lists[t] == s.lists[u];
      s.(fault := s.fault || !(s.lists.Values <= s.heap.Keys) || twice,
         heap := s.heap - s.lists.Values, lists := map[], destroyed := true)
  }

  predicate EnabledAll(s: State, steps: seq<Step>)
    decreases |steps|
  {
    steps == [] || (Enabled(s, steps[0]) && EnabledAll(Next(s, steps[0]), steps[1..]))
  }

  function Run(s: State, steps: seq<Step>): State
    requires EnabledAll(s, steps)
    decreases |steps|
  {
    if steps == [] then s else Run(Next(s, steps[0]), steps[1..])
  }

  /** A run is its steps one after the other. */
  lemma {:induction false} RunGrows(s: State, steps: seq<Step>, step: Step)
    ensures EnabledAll(s, []) && Run(s, []) == s
    ensures EnabledAll(s, steps + [step]) <==> EnabledAll(s, steps) && Enabled(Run(s, steps), step)
    ensures EnabledAll(s, steps + [step]) ==> Run(s, steps + [step]) == Next(Run(s, steps), step)
    decreases |steps|
  {
    if steps == [] {
      assert [] + [step] == [step] && [step][1..] == [];
    } else {
      assert (steps + [step])[1..] == steps[1..] + [step];
      if Enabled(s, steps[0]) { RunGrows(Next(s, steps[0]), steps[1..], step); }
    }
  }

  function Start(existingOnly: bool): State {
    State(map[], map[], map[], multiset{}, existingOnly, {}, false, false)
  }

  // ---------------------------------------------------------------- the invariant

  /** The frame has a live iterator on its context. */
  predicate InScope(f: Frame) {
    f.Iterating? || f.Calling? || f.Closing?
  }

  function Scopes(stk: Stack, c: Address): nat {
    match stk
    case Bottom => 0
    case Push(f, rest) => (if InScope(f) && f.ctx == c then 1 else 0) + Scopes(rest, c)
  }

  /** Every frame works on a live context of its own thread, and every frame below the top is in a callback. */
  predicate FramesOk(heap: map<Address, Context>, stk: Stack, t: ThreadId) {
    match stk
    case Bottom => true
    case Push(f, rest) =>
      f.ctx in heap && heap[f.ctx].owner == t && CanCall(rest) && FramesOk(heap, rest, t)
  }

  /** No call is just now moving this context between its stages. */
  predicate Resting(x: Context, listed: bool) {
    if listed then x.slots != [] else x.depth > 0 && x.slots == [None]
  }

  /** How far the call on top of the owner's stack has brought the context. */
  predicate Phase(c: Address, x: Context, listed: bool, stk: Stack) {
    if stk.Push? && stk.top.ctx == c then
      match stk.top
      case Adding(_, _) => listed
      case Removing(_, o) => if listed then x.slots != [] && x.slots != [Some(o)] else x.slots == [Some(o)]
      case Checking(_) => if listed then x.slots != [] else x.slots == if x.depth == 0 then [] else [None]
      case Entering(_) => listed && x.slots != []
      case Leaving(_) => if x.depth == 0 then listed || x.slots == [] else Resting(x, listed)
      case Unlisting(_) => x.depth == 0 && x.slots == []
      case Deleting(_) => x.depth == 0 && x.slots == [] && !listed
      case _ => Resting(x, listed)
    else Resting(x, listed)
  }

  predicate Listed(s: State, c: Address, t: ThreadId) {
    t in s.lists && s.lists[t] == c
  }

  predicate ContextOk(c: Address, x: Context, listed: bool, stk: Stack) {
    && x.depth == Scopes(stk, c)
    && (x.depth == 0 ==> L.NoNulls(x.slots))
    && (x.depth > 0 ==> x.slots != [])
    && Phase(c, x, listed, stk)
  }

  ghost predicate Inv(s: State) {
    && !s.fault
    && (s.destroyed ==> s.heap == map[] && s.lists == map[])
    && (forall t :: t in s.lists ==> s.lists[t] in s.heap && s.heap[s.lists[t]].owner == t)
    && (forall t :: t in s.stacks ==> FramesOk(s.heap, s.stacks[t], t))
    && (forall c :: c in s.heap ==>
          ContextOk(c, s.heap[c], Listed(s, c, s.heap[c].owner), StackOf(s, s.heap[c].owner)))
  }

  // ---------------------------------------------------------------- stack lemmas

  lemma {:induction false} FramesKept(
      heap: map<Address, Context>, heap': map<Address, Context>, stk: Stack, t: ThreadId)
    requires FramesOk(heap, stk, t)
    requires forall a :: a in heap && heap[a].owner == t ==> a in heap' && heap'[a].owner == t
    ensures FramesOk(heap', stk, t)
  {
    if stk.Push? { FramesKept(heap, heap', stk.rest, t); }
  }

  /** A context no suspended frame iterates over can be freed under them. */
  lemma {:induction false} FramesSurviveFree(heap: map<Address, Context>, stk: Stack, t: ThreadId, c: Address)
    requires FramesOk(heap, stk, t) && CanCall(stk) && Scopes(stk, c) == 0
    ensures FramesOk(heap - {c}, stk, t)
  {
    if stk.Push? { FramesSurviveFree(heap, stk.rest, t, c); }
  }

  /** A context at an address that is not in use is in nobody's iteration. */
  lemma {:induction false} NoScopes(heap: map<Address, Context>, stk: Stack, t: ThreadId, room: Address)
    requires FramesOk(heap, stk, t) && room !in heap
    ensures Scopes(stk, room) == 0
  {
    if stk.Push? { NoScopes(heap, stk.rest, t, room); }
  }

  // ---------------------------------------------------------------- one thread's step

  /** Outside c, a thread's own contexts see only the number of iterators on them; those of others see nothing. */
  ghost predicate ChangesOnly(s: State, s': State, t: ThreadId, c: Address) {
    && s'.stacks == s.stacks[t := StackOf(s', t)]
    && (forall u :: u != t ==> (u in s'.lists <==> u in s.lists))
    && (forall u :: u != t && u in s.lists ==> s'.lists[u] == s.lists[u])
    && (forall a :: a != c ==> (a in s'.heap <==> a in s.heap))
    && (forall a :: a != c && a in s.heap ==> s'.heap[a] == s.heap[a])
    && (c in s.heap ==> s.heap[c].owner == t)
    && (c in s'.heap ==> s'.heap[c].owner == t)
  }

  predicate Settled(stk: Stack, c: Address) {
    stk.Push? ==> stk.top.ctx == c || stk.top.Calling?
  }

  lemma {:induction false} OtherThreads(s: State, s': State, t: ThreadId, c: Address)
    requires Inv(s) && ChangesOnly(s, s', t, c)
    ensures forall u :: u in s'.stacks && u != t ==> FramesOk(s'.heap, s'.stacks[u], u)
    ensures forall a :: a in s'.heap && s'.heap[a].owner != t ==>
      ContextOk(a, s'.heap[a], Listed(s', a, s'.heap[a].owner), StackOf(s', s'.heap[a].owner))
  {
    forall u | u in s'.stacks && u != t ensures FramesOk(s'.heap, s'.stacks[u], u) {
      FramesKept(s.heap, s'.heap, s.stacks[u], u);
    }
    forall a | a in s'.heap && s'.heap[a].owner != t
      ensures ContextOk(a, s'.heap[a], Listed(s', a, s'.heap[a].owner), StackOf(s', s'.heap[a].owner))
    {
      assert StackOf(s', s.heap[a].owner) == StackOf(s, s.heap[a].owner);
    }
  }

  lemma {:induction false} OtherContexts(s: State, s': State, t: ThreadId, c: Address, a: Address)
    requires Inv(s) && ChangesOnly(s, s', t, c)
    requires Settled(StackOf(s, t), c) && Settled(StackOf(s', t), c)
    requires a in s'.heap && s'.heap[a].owner == t && a != c
    requires Scopes(StackOf(s', t), a) == Scopes(StackOf(s, t), a)
    requires Listed(s', a, t) <==> Listed(s, a, t)
    ensures ContextOk(a, s'.heap[a], Listed(s', a, t), StackOf(s', t))
  {
    assert ContextOk(a, s.heap[a], Listed(s, a, t), StackOf(s, t));
  }

  /** A step of t on context c keeps the invariant if it does so for c and for t's stack. */
  lemma {:induction false} LocalStep(s: State, s': State, t: ThreadId, c: Address)
    requires Inv(s) && !s'.fault && !s'.destroyed && ChangesOnly(s, s', t, c)
    requires Settled(StackOf(s, t), c) && Settled(StackOf(s', t), c)
    requires forall a :: a != c ==> Scopes(StackOf(s', t), a) == Scopes(StackOf(s, t), a)
    requires forall a :: a != c ==> (Listed(s', a, t) <==> Listed(s, a, t))
    requires t in s'.lists ==> s'.lists[t] in s'.heap && s'.heap[s'.lists[t]].owner == t
    requires FramesOk(s'.heap, StackOf(s', t), t)
    requires c in s'.heap ==> ContextOk(c, s'.heap[c], Listed(s', c, t), StackOf(s', t))
    ensures Inv(s')
  {
    OtherThreads(s, s', t, c);
    forall a | a in s'.heap
      ensures ContextOk(a, s'.heap[a], Listed(s', a, s'.heap[a].owner), StackOf(s', s'.heap[a].owner))
    {
      if s'.heap[a].owner == t && a != c { OtherContexts(s, s', t, c, a); }
    }
    ListsKept(s, s', t, c);
  }

  lemma {:induction false} ListsKept(s: State, s': State, t: ThreadId, c: Address)
    requires Inv(s) && ChangesOnly(s, s', t, c)
    requires t in s'.lists ==> s'.lists[t] in s'.heap && s'.heap[s'.lists[t]].owner == t
    ensures forall u :: u in s'.lists ==> s'.lists[u] in s'.heap && s'.heap[s'.lists[u]].owner == u
  {
    forall u | u in s'.lists ensures s'.lists[u] in s'.heap && s'.heap[s'.lists[u]].owner == u {
      if u != t { assert s'.lists[u] == s.lists[u]; }
    }
  }

  lemma {:induction false} AddLockOk(s: State, t: ThreadId, o: L.Observer, room: Address)
    requires Inv(s) && Enabled(s, AddLock(t, o, room))
    ensures Inv(Next(s, AddLock(t, o, room)))
  {
    var s' := Next(s, AddLock(t, o, room));
    var c := s'.lists[t];
    if t !in s.lists {
      FramesKept(s.heap, s'.heap, StackOf(s, t), t);
      NoScopes(s.heap, StackOf(s, t), t, room);
    } else {
      assert ContextOk(c, s.heap[c], true, StackOf(s, t));
    }
    LocalStep(s, s', t, c);
  }

  lemma {:induction false} RemoveLockOk(s: State, t: ThreadId, o: L.Observer)
    requires Inv(s) && Enabled(s, RemoveLock(t, o))
    ensures Inv(Next(s, RemoveLock(t, o)))
  {
    var s' := Next(s, RemoveLock(t, o));
    if t in s.lists {
      var c := s.lists[t];
      assert ContextOk(c, s.heap[c], true, StackOf(s, t));
      assert |s.heap[c].slots| == 1 ==> s.heap[c].slots == [s.heap[c].slots[0]];
      LocalStep(s, s', t, c);
    }
  }

  lemma {:induction false} NotifyOk(s: State, t: ThreadId)
    requires Inv(s) && Enabled(s, Notify(t))
    ensures Inv(Next(s, Notify(t)))
  {
  }

  lemma {:induction false} RunTaskOk(s: State, t: ThreadId, a: Address)
    requires Inv(s) && Enabled(s, RunTask(t, a))
    ensures Inv(Next(s, RunTask(t, a)))
  {
    var s' := Next(s, RunTask(t, a));
    if t in s.lists && s.lists[t] == a {
      assert ContextOk(a, s.heap[a], true, StackOf(s, t));
      LocalStep(s, s', t, a);
    }
  }

  lemma {:induction false} AddingOk(s: State, t: ThreadId)
    requires Inv(s) && Enabled(s, Go(t)) && StackOf(s, t).top.Adding?
    ensures Inv(Next(s, Go(t)))
  {
    var s' := Next(s, Go(t));
    var c := StackOf(s, t).top.ctx;
    FramesKept(s.heap, s'.heap, StackOf(s, t).rest, t);
    assert ContextOk(c, s.heap[c], Listed(s, c, t), StackOf(s, t));
    LocalStep(s, s', t, c);
  }

  /** The removal behind RemoveObserver brings the context exactly where the size test expects it. */
  lemma {:induction false} RemovalPhase(c: Address, x: Context, o: L.Observer, listed: bool, rest: Stack)
    requires ContextOk(c, x, listed, Push(Removing(c, o), rest))
    ensures ContextOk(c, x.(slots := L.Removed(x.slots, x.depth, o)), listed, Push(Checking(c), rest))
  {
    assert |x.slots| == 1 ==> x.slots == [x.slots[0]];
  }

  lemma {:induction false} RemovingOk(s: State, t: ThreadId)
    requires Inv(s) && Enabled(s, Go(t)) && StackOf(s, t).top.Removing?
    ensures Inv(Next(s, Go(t)))
  {
    var s' := Next(s, Go(t));
    var stk := StackOf(s, t);
    var c := stk.top.ctx;
    FramesKept(s.heap, s'.heap, stk.rest, t);
    assert ContextOk(c, s.heap[c], Listed(s, c, t), stk);
    RemovalPhase(c, s.heap[c], stk.top.obs, Listed(s, c, t), stk.rest);
    LocalStep(s, s', t, c);
  }

  lemma {:induction false} EnteringOk(s: State, t: ThreadId)
    requires Inv(s) && Enabled(s, Go(t)) && StackOf(s, t).top.Entering?
    ensures Inv(Next(s, Go(t)))
  {
    var s' := Next(s, Go(t));
    var c := StackOf(s, t).top.ctx;
    FramesKept(s.heap, s'.heap, StackOf(s, t).rest, t);
    assert ContextOk(c, s.heap[c], Listed(s, c, t), StackOf(s, t));
    LocalStep(s, s', t, c);
  }

  lemma {:induction false} ClosingOk(s: State, t: ThreadId)
    requires Inv(s) && Enabled(s, Go(t)) && StackOf(s, t).top.Closing?
    ensures Inv(Next(s, Go(t)))
  {
    var s' := Next(s, Go(t));
    var c := StackOf(s, t).top.ctx;
    FramesKept(s.heap, s'.heap, StackOf(s, t).rest, t);
    assert ContextOk(c, s.heap[c], Listed(s, c, t), StackOf(s, t));
    CompactedFacts(s.heap[c].slots);
    LocalStep(s, s', t, c);
  }

  lemma {:induction false} CompactedFacts(slots: L.Slots)
    ensures L.NoNulls(L.Compacted(slots))
    ensures slots == [None] ==> L.Compacted(slots) == []
  {
    if slots == [None] { L.RegisteredOne(None); }
  }

  lemma {:induction false} IteratingOk(s: State, t: ThreadId)
    requires Inv(s) && Enabled(s, Go(t)) && (StackOf(s, t).top.Iterating? || StackOf(s, t).top.Calling?)
    ensures Inv(Next(s, Go(t)))
  {
    var s' := Next(s, Go(t));
    var c := StackOf(s, t).top.ctx;
    assert ContextOk(c, s.heap[c], Listed(s, c, t), StackOf(s, t));
    LocalStep(s, s', t, c);
  }

  lemma {:induction false} LeavingOk(s: State, t: ThreadId)
    requires Inv(s) && Enabled(s, Go(t)) && (StackOf(s, t).top.Leaving? || StackOf(s, t).top.Unlisting?)
    ensures Inv(Next(s, Go(t)))
  {
    var s' := Next(s, Go(t));
    var c := StackOf(s, t).top.ctx;
    assert ContextOk(c, s.heap[c], Listed(s, c, t), StackOf(s, t));
    LocalStep(s, s', t, c);
  }

  lemma {:induction false} FreeingOk(s: State, t: ThreadId)
    requires Inv(s) && Enabled(s, Go(t)) && (StackOf(s, t).top.Checking? || StackOf(s, t).top.Deleting?)
    ensures Inv(Next(s, Go(t)))
  {
    var s' := Next(s, Go(t));
    var c := StackOf(s, t).top.ctx;
    assert ContextOk(c, s.heap[c], Listed(s, c, t), StackOf(s, t));
    if s.heap[c].slots == [] {
      FramesSurviveFree(s.heap, StackOf(s, t).rest, t, c);
    }
    LocalStep(s, s', t, c);
  }

  lemma {:induction false} DestroyOk(s: State)
    requires Inv(s) && Enabled(s, Destroy)
    ensures Inv(Next(s, Destroy)) && Next(s, Destroy).heap == map[]
  {
    forall c | c in s.heap ensures c in s.lists.Values {
      var t := s.heap[c].owner;
      assert StackOf(s, t).Bottom?;
      assert ContextOk(c, s.heap[c], Listed(s, c, t), StackOf(s, t));
    }
  }

  lemma {:induction false} NextOk(s: State, step: Step)
    requires Inv(s) && Enabled(s, step)
    ensures Inv(Next(s, step))
  {
    match step {
      case AddLock(t, o, room) => AddLockOk(s, t, o, room);
      case RemoveLock(t, o) => RemoveLockOk(s, t, o);
      case Notify(t) => NotifyOk(s, t);
      case RunTask(t, a) => RunTaskOk(s, t, a);
      case DropTask(t, a) =>
      case Go(t) =>
        match StackOf(s, t).top {
          case Adding(_, _) => AddingOk(s, t);
          case Removing(_, _) => RemovingOk(s, t);
          case Checking(_) => FreeingOk(s, t);
          case Entering(_) => EnteringOk(s, t);
          case Iterating(_, _, _) => IteratingOk(s, t);
          case Calling(_, _, _, _) => IteratingOk(s, t);
          case Closing(_) => ClosingOk(s, t);
          case Leaving(_) => LeavingOk(s, t);
          case Unlisting(_) => LeavingOk(s, t);
          case Deleting(_) => FreeingOk(s, t);
        }
      case Destroy => DestroyOk(s);
    }
  }

  lemma {:induction false} RunOk(s: State, steps: seq<Step>)
    requires Inv(s) && EnabledAll(s, steps)
    ensures Inv(Run(s, steps))
    decreases |steps|
  {
    if steps != [] {
      NextOk(s, steps[0]);
      RunOk(Next(s, steps[0]), steps[1..]);
    }
  }

  // ---------------------------------------------------------------- main results

  /** No interleaving ever uses a context that is not alive, or deletes one twice. */
  lemma {:induction false} NoUseAfterDelete(existingOnly: bool, steps: seq<Step>)
    requires EnabledAll(Start(existingOnly), steps)
    ensures !Run(Start(existingOnly), steps).fault
  {
    RunOk(Start(existingOnly), steps);
  }

  /** The stack has a NotifyWrapper frame working on c. */
  predicate Notifying(stk: Stack, c: Address) {
    match stk
    case Bottom => false
    case Push(f, rest) => (f.ctx == c && !f.Adding? && !f.Removing? && !f.Checking?) || Notifying(rest, c)
  }

  lemma {:induction false} ScopeNotifies(stk: Stack, c: Address)
    requires Scopes(stk, c) > 0
    ensures Notifying(stk, c)
  {
    if !(InScope(stk.top) && stk.top.ctx == c) { ScopeNotifies(stk.rest, c); }
  }

  /**
    Every live context is in observer_lists_ under its own thread, or a NotifyWrapper on that thread is still
    working on it, or that thread is inside the very RemoveObserver call that is about to delete it.
  */
  lemma {:induction false} NothingLost(existingOnly: bool, steps: seq<Step>, c: Address)
    requires EnabledAll(Start(existingOnly), steps)
    requires c in Run(Start(existingOnly), steps).heap
    ensures var s := Run(Start(existingOnly), steps);
      var t := s.heap[c].owner;
      var stk := StackOf(s, t);
      || (t in s.lists && s.lists[t] == c)
      || Notifying(stk, c)
      || (stk.Push? && stk.top.ctx == c && (stk.top.Removing? || stk.top.Checking?))
  {
    RunOk(Start(existingOnly), steps);
    var s := Run(Start(existingOnly), steps);
    var t := s.heap[c].owner;
    assert ContextOk(c, s.heap[c], Listed(s, c, t), StackOf(s, t));
    if s.heap[c].depth > 0 { ScopeNotifies(StackOf(s, t), c); }
  }

  /** Once no call is in progress and no task is posted the destructor can run, and it leaves no context behind. */
  lemma {:induction false} DestructorLeaksNothing(existingOnly: bool, steps: seq<Step>)
    requires EnabledAll(Start(existingOnly), steps)
    requires var s := Run(Start(existingOnly), steps);
      !s.destroyed && s.tasks == multiset{} && forall t :: StackOf(s, t).Bottom?
    ensures Enabled(Run(Start(existingOnly), steps), Destroy)
    ensures var s := Next(Run(Start(existingOnly), steps), Destroy);
      s.heap == map[] && s.lists == map[] && s.destroyed && !s.fault
  {
    RunOk(Start(existingOnly), steps);
    var s := Run(Start(existingOnly), steps);
    assert forall t :: t in s.stacks ==> s.stacks[t] == StackOf(s, t);
    DestroyOk(s);
  }

  // ---------------------------------------------------------------- callbacks stay on the adding thread

  ghost predicate Homed(s: State) {
    && (forall c, o :: c in s.heap && Some(o) in s.heap[c].slots ==> (s.heap[c].owner, o) in s.added)
    && (forall t :: t in s.stacks ==> HomedStack(s.added, s.stacks[t], t))
  }

  predicate HomedStack(added: set<(ThreadId, L.Observer)>, stk: Stack, t: ThreadId) {
    match stk
    case Bottom => true
    case Push(f, rest) => (f.Calling? ==> (t, f.obs) in added) && HomedStack(added, rest, t)
  }

  lemma {:induction false} HomedGrows(
      a: set<(ThreadId, L.Observer)>, b: set<(ThreadId, L.Observer)>, stk: Stack, t: ThreadId)
    requires HomedStack(a, stk, t) && a <= b
    ensures HomedStack(b, stk, t)
  {
    if stk.Push? { HomedGrows(a, b, stk.rest, t); }
  }

  lemma {:induction false} SlotsShrink(slots: L.Slots, depth: nat, o: L.Observer, p: L.Observer)
    ensures Some(p) in L.Added(slots, o) ==> p == o || Some(p) in slots
    ensures Some(p) in L.Removed(slots, depth, o) ==> Some(p) in slots
    ensures Some(p) in L.Compacted(slots) ==> Some(p) in slots
  {
    assert Some(p) in L.Compacted(slots) ==> p in L.Registered(slots);
  }

  lemma {:induction false} GoSlots(s: State, t: ThreadId, c: Address, p: L.Observer)
    requires !s.fault && Homed(s) && Enabled(s, Go(t))
    requires FramesOk(s.heap, StackOf(s, t), t)
    requires c in Next(s, Go(t)).heap && Some(p) in Next(s, Go(t)).heap[c].slots
    ensures (Next(s, Go(t)).heap[c].owner, p) in Next(s, Go(t)).added
  {
    var f := StackOf(s, t).top;
    var x := s.heap[f.ctx];
    SlotsShrink(x.slots, x.depth, if f.Adding? || f.Removing? then f.obs else 0, p);
    if c != f.ctx {
      assert s.heap[c] == Next(s, Go(t)).heap[c];
    }
  }

  lemma {:induction false} OtherSlots(s: State, step: Step, c: Address, p: L.Observer)
    requires Homed(s) && Enabled(s, step) && !step.Go?
    requires c in Next(s, step).heap && Some(p) in Next(s, step).heap[c].slots
    ensures (Next(s, step).heap[c].owner, p) in Next(s, step).added
  {
  }

  lemma {:induction false} GoHomed(s: State, t: ThreadId)
    requires Inv(s) && Homed(s) && Enabled(s, Go(t))
    ensures HomedStack(Next(s, Go(t)).added, StackOf(Next(s, Go(t)), t), t)
  {
    var s' := Next(s, Go(t));
    var stk := StackOf(s, t);
    HomedGrows(s.added, s'.added, stk.rest, t);
    if stk.top.Iterating? {
      var x := s.heap[stk.top.ctx];
      var n := L.NextSlot(x.slots, stk.top.index, stk.top.maxIndex);
      assert n < L.Bound(x.slots, stk.top.maxIndex) ==> x.slots[n] in x.slots;
    }
  }

  lemma {:induction false} StacksHomed(s: State, step: Step, t: ThreadId)
    requires Inv(s) && Homed(s) && Enabled(s, step) && t in Next(s, step).stacks
    ensures HomedStack(Next(s, step).added, Next(s, step).stacks[t], t)
  {
    if step == Go(t) {
      GoHomed(s, t);
    } else {
      OtherStacksHomed(s, step, t);
    }
  }

  lemma {:induction false} GoStacks(s: State, u: ThreadId)
    requires Enabled(s, Go(u))
    ensures s.added <= Next(s, Go(u)).added
    ensures Next(s, Go(u)).stacks == s.stacks[u := Continue(s, StackOf(s, u).top, StackOf(s, u).rest)]
  {
  }

  lemma {:induction false} AddLockStacks(s: State, u: ThreadId, o: L.Observer, room: Address)
    requires Enabled(s, AddLock(u, o, room))
    ensures var s' := Next(s, AddLock(u, o, room));
      s'.added == s.added && s'.stacks == s.stacks[u := Push(Adding(s'.lists[u], o), StackOf(s, u))]
  {
  }

  lemma {:induction false} RemoveLockStacks(s: State, u: ThreadId, o: L.Observer)
    requires Enabled(s, RemoveLock(u, o))
    ensures var s' := Next(s, RemoveLock(u, o));
      s'.added == s.added
      && s'.stacks == if u in s.lists then s.stacks[u := Push(Removing(s.lists[u], o), StackOf(s, u))] else s.stacks
  {
  }

  lemma {:induction false} RunTaskStacks(s: State, u: ThreadId, a: Address)
    requires Enabled(s, RunTask(u, a))
    ensures var s' := Next(s, RunTask(u, a));
      s'.added == s.added && (s'.stacks == s.stacks || s'.stacks == s.stacks[u := Push(Entering(a), StackOf(s, u))])
  {
  }

  /** Except by its own Go, a thread's stack changes only by a new frame that has no iterator yet. */
  lemma {:induction false} OtherStacks(s: State, step: Step, t: ThreadId)
    requires Enabled(s, step) && t in Next(s, step).stacks && step != Go(t)
    ensures s.added <= Next(s, step).added
    ensures var stk' := Next(s, step).stacks[t];
      (t in s.stacks && stk' == s.stacks[t]) || (stk'.Push? && !InScope(stk'.top) && stk'.rest == StackOf(s, t))
  {
    match step {
      case Go(u) => GoStacks(s, u);
      case AddLock(u, o, room) => AddLockStacks(s, u, o, room);
      case RemoveLock(u, o) => RemoveLockStacks(s, u, o);
      case RunTask(u, a) => RunTaskStacks(s, u, a);
      case _ =>
    }
  }

  lemma {:induction false} OtherStacksHomed(s: State, step: Step, t: ThreadId)
    requires Homed(s) && Enabled(s, step) && t in Next(s, step).stacks && step != Go(t)
    ensures HomedStack(Next(s, step).added, Next(s, step).stacks[t], t)
  {
    OtherStacks(s, step, t);
    assert HomedStack(s.added, StackOf(s, t), t);
    HomedGrows(s.added, Next(s, step).added, StackOf(s, t), t);
  }

  lemma {:induction false} NextHomed(s: State, step: Step)
    requires Inv(s) && Homed(s) && Enabled(s, step)
    ensures Homed(Next(s, step))
  {
    var s' := Next(s, step);
    forall c, p | c in s'.heap && Some(p) in s'.heap[c].slots ensures (s'.heap[c].owner, p) in s'.added {
      SlotsHomed(s, step, c, p);
    }
    forall t | t in s'.stacks ensures HomedStack(s'.added, s'.stacks[t], t) {
      StacksHomed(s, step, t);
    }
  }

  lemma {:induction false} SlotsHomed(s: State, step: Step, c: Address, p: L.Observer)
    requires Inv(s) && Homed(s) && Enabled(s, step)
    requires c in Next(s, step).heap && Some(p) in Next(s, step).heap[c].slots
    ensures (Next(s, step).heap[c].owner, p) in Next(s, step).added
  {
    match step {
      case Go(t) =>
        assert FramesOk(s.heap, StackOf(s, t), t);
        GoSlots(s, t, c, p);
      case _ => OtherSlots(s, step, c, p);
    }
  }

  lemma {:induction false} RunHomed(s: State, steps: seq<Step>)
    requires Inv(s) && Homed(s) && EnabledAll(s, steps)
    ensures Homed(Run(s, steps))
    decreases |steps|
  {
    if steps != [] {
      NextOk(s, steps[0]);
      NextHomed(s, steps[0]);
      RunHomed(Next(s, steps[0]), steps[1..]);
    }
  }

  /** An observer is only ever called on a thread that added it. */
  lemma {:induction false} CalledWhereAdded(existingOnly: bool, steps: seq<Step>, t: ThreadId)
    requires EnabledAll(Start(existingOnly), steps)
    requires var stk := StackOf(Run(Start(existingOnly), steps), t); stk.Push? && stk.top.Calling?
    ensures var s := Run(Start(existingOnly), steps);
      (t, StackOf(s, t).top.obs) in s.added
  {
    RunHomed(Start(existingOnly), steps);
  }
}
