/**
  src/base/observer_list.h: a list of observers that may be edited while it is being iterated.

  The first half of the module is the value-level meaning of the list operations and of a whole run of them;
  the second half is the mutable list and its iterator, proved against those functions.
  An observer is identified by its address (a number); a null slot is None.
*/
module ObserverLists {
  import opened Options

  type Observer = nat
  type Slots = seq<Option<Observer>>

  // ---------------------------------------------------------------- slots

  predicate NoNulls(slots: Slots) {
    forall j :: 0 <= j < |slots| ==> slots[j].Some?
  }

  predicate NoDuplicates(slots: Slots) {
    forall i, j :: 0 <= i < j < |slots| && slots[i].Some? ==> slots[i] != slots[j]
  }

  /** The observers that are still registered, in slot order. */
  function Registered(slots: Slots): (r: seq<Observer>)
    ensures forall o :: o in r <==> Some(o) in slots
  {
    if slots == [] then []
    else
      var init := slots[..|slots| - 1];
      assert slots == init + [slots[|slots| - 1]];
      if slots[|slots| - 1].None? then Registered(init) else Registered(init) + [slots[|slots| - 1].value]
  }

  function Added(slots: Slots, o: Observer): Slots {
    if Some(o) in slots then slots else slots + [Some(o)]
  }

  /** The first slot holding o, or |slots|: the result of std::find. */
  function Find(slots: Slots, o: Observer): (i: nat)
    ensures i <= |slots|
    ensures i < |slots| ==> slots[i] == Some(o)
    ensures Some(o) !in slots[..i]
    ensures i == |slots| <==> Some(o) !in slots
  {
    if slots == [] then 0
    else if slots[0] == Some(o) then 0
    else
      var i := Find(slots[1..], o);
      assert slots[..i + 1] == [slots[0]] + slots[1..][..i];
      assert slots == [slots[0]] + slots[1..];
      i + 1
  }

  function Removed(slots: Slots, depth: nat, o: Observer): Slots {
    var i := Find(slots, o);
    if i == |slots| then slots
    else if depth > 0 then slots[i := None]
    else slots[..i] + slots[i + 1..]
  }

  function AllNull(n: nat): Slots {
    seq(n, _ => None)
  }

  function Cleared(slots: Slots, depth: nat): Slots {
    if depth > 0 then AllNull(|slots|) else []
  }

  function AllSome(os: seq<Observer>): (r: Slots)
    ensures |r| == |os| && forall j :: 0 <= j < |os| ==> r[j] == Some(os[j])
  {
    seq(|os|, j requires 0 <= j < |os| => Some(os[j]))
  }

  function Compacted(slots: Slots): Slots {
    AllSome(Registered(slots))
  }

  /** Where GetNext looks up to: min(max_index_, observers.size()); None is the size_t maximum of NOTIFY_ALL. */
  function Bound(slots: Slots, maxIndex: Option<nat>): nat {
    match maxIndex
    case None => |slots|
    case Some(m) => if m < |slots| then m else |slots|
  }

  /** The slot GetNext stops at: the first non-null one at or after index, or Bound. */
  function NextSlot(slots: Slots, index: nat, maxIndex: Option<nat>): (r: nat)
    ensures index <= r
    ensures index <= Bound(slots, maxIndex) ==> r <= Bound(slots, maxIndex)
    ensures r < Bound(slots, maxIndex) ==> slots[r].Some?
    ensures forall j :: index <= j < r ==> j < |slots| && slots[j].None?
    decreases |slots| - index
  {
    if index < Bound(slots, maxIndex) && slots[index].None? then NextSlot(slots, index + 1, maxIndex) else index
  }

  // ---------------------------------------------------------------- runs

  /** One iterator: its two fields, and (for the proofs) the slot count at its creation and what it returned so far. */
  datatype Iter = Iter(index: nat, maxIndex: Option<nat>, born: nat, log: seq<(nat, Observer)>)

  datatype World = World(slots: Slots, depth: nat, existingOnly: bool, iters: map<nat, Iter>)

  datatype Op =
    | AddOp(o: Observer)
    | RemoveOp(o: Observer)
    | ClearOp
    | BeginOp(id: nat)
    | NextOp(id: nat)
    | EndOp(id: nat)

  /** Iterators are created under a fresh name and used only while they live; nothing else is demanded. */
  predicate Enabled(w: World, op: Op) {
    match op
    case BeginOp(id) => id !in w.iters
    case NextOp(id) => id in w.iters
    case EndOp(id) => id in w.iters
    case _ => true
  }

  function Advance(slots: Slots, it: Iter): Iter {
    var n := NextSlot(slots, it.index, it.maxIndex);
    if n < Bound(slots, it.maxIndex)
    then it.(index := n + 1, log := it.log + [(n, slots[n].value)])
    else it.(index := n)
  }

  function Step(w: World, op: Op): World
    requires Enabled(w, op)
  {
    match op
    case AddOp(o) => w.(slots := Added(w.slots, o))
    case RemoveOp(o) => w.(slots := Removed(w.slots, w.depth, o))
    case ClearOp => w.(slots := Cleared(w.slots, w.depth))
    case BeginOp(id) =>
      var it := Iter(0, if w.existingOnly then Some(|w.slots|) else None, |w.slots|, []);
      w.(depth := w.depth + 1, iters := w.iters[id := it])
    case NextOp(id) => w.(iters := w.iters[id := Advance(w.slots, w.iters[id])])
    case EndOp(id) =>
      var rest := w.iters - {id};
      if w.depth == 1 then w.(depth := 0, iters := rest, slots := Compacted(w.slots))
      else w.(depth := if w.depth > 0 then w.depth - 1 else 0, iters := rest)
  }

  predicate EnabledAll(w: World, ops: seq<Op>)
    decreases |ops|
  {
    ops == [] || (Enabled(w, ops[0]) && EnabledAll(Step(w, ops[0]), ops[1..]))
  }

  function Run(w: World, ops: seq<Op>): World
    requires EnabledAll(w, ops)
    decreases |ops|
  {
    if ops == [] then w else Run(Step(w, ops[0]), ops[1..])
  }

  /** A run is its steps one after the other. */
  lemma {:induction false} RunGrows(w: World, ops: seq<Op>, op: Op)
    ensures EnabledAll(w, []) && Run(w, []) == w
    ensures EnabledAll(w, ops + [op]) <==> EnabledAll(w, ops) && Enabled(Run(w, ops), op)
    ensures EnabledAll(w, ops + [op]) ==> Run(w, ops + [op]) == Step(Run(w, ops), op)
    decreases |ops|
  {
    if ops == [] {
      assert [] + [op] == [op] && [op][1..] == [];
    } else {
      assert (ops + [op])[1..] == ops[1..] + [op];
      if Enabled(w, ops[0]) { RunGrows(Step(w, ops[0]), ops[1..], op); }
    }
  }

  function Start(existingOnly: bool): World {
    World([], 0, existingOnly, map[])
  }

  predicate Increasing(log: seq<(nat, Observer)>) {
    forall a, b :: 0 <= a < b < |log| ==> log[a].0 < log[b].0
  }

  ghost predicate IterOk(w: World, it: Iter) {
    && it.born <= |w.slots|
    && it.maxIndex == (if w.existingOnly then Some(it.born) else None)
    && it.index <= Bound(w.slots, it.maxIndex)
    && Increasing(it.log)
    && (forall e :: e in it.log ==> e.0 < it.index && (w.slots[e.0] == Some(e.1) || w.slots[e.0].None?))
    && (forall j :: 0 <= j < it.index && w.slots[j].Some? ==> (j, w.slots[j].value) in it.log)
  }

  ghost predicate WorldOk(w: World) {
    && w.depth == |w.iters|
    && NoDuplicates(w.slots)
    && (w.depth == 0 ==> NoNulls(w.slots))
    && (forall id :: id in w.iters ==> IterOk(w, w.iters[id]))
  }

  /** Between the two states no slot moved: old slots kept their observer or became null, new ones came at the end. */
  ghost predicate Stable(before: Slots, after: Slots) {
    && |before| <= |after|
    && forall j :: 0 <= j < |before| ==> after[j] == before[j] || after[j].None?
  }

  // ---------------------------------------------------------------- lemmas about slots

  lemma {:induction false} RegisteredAppend(a: Slots, b: Slots)
    ensures Registered(a + b) == Registered(a) + Registered(b)
  {
    if b == [] {
      assert a + b == a;
    } else {
      var n := |b| - 1;
      assert (a + b)[..|a + b| - 1] == a + b[..n];
      RegisteredAppend(a, b[..n]);
    }
  }

  lemma {:induction false} RegisteredOne(s: Option<Observer>)
    ensures Registered([s]) == if s.Some? then [s.value] else []
  {
    var one: Slots := [s];
    assert one[..0] == [];
    assert Registered(one[..0]) == [];
  }

  lemma {:induction false} RegisteredNoNulls(slots: Slots)
    requires NoNulls(slots)
    ensures AllSome(Registered(slots)) == slots
  {
    if slots != [] {
      RegisteredNoNulls(slots[..|slots| - 1]);
    }
  }

  lemma {:induction false} RegisteredAllSome(os: seq<Observer>)
    ensures Registered(AllSome(os)) == os
  {
    if os != [] {
      RegisteredAllSome(os[..|os| - 1]);
      assert AllSome(os)[..|os| - 1] == AllSome(os[..|os| - 1]);
    }
  }

  lemma {:induction false} RegisteredDistinct(slots: Slots)
    requires NoDuplicates(slots)
    ensures forall i, j :: 0 <= i < j < |Registered(slots)| ==> Registered(slots)[i] != Registered(slots)[j]
  {
    if slots != [] {
      var n := |slots| - 1;
      RegisteredDistinct(slots[..n]);
      assert slots[n].Some? ==> slots[n].value !in Registered(slots[..n]);
    }
  }

  lemma {:induction false} RegisteredOfNones(n: nat)
    ensures Registered(AllNull(n)) == []
  {
    if n > 0 {
      RegisteredOfNones(n - 1);
      assert AllNull(n)[..n - 1] == AllNull(n - 1);
    }
  }

  lemma {:induction false} RegisteredSplit(pre: Slots, mid: Option<Observer>, post: Slots)
    ensures Registered(pre + [mid] + post) ==
      Registered(pre) + (if mid.Some? then [mid.value] else []) + Registered(post)
  {
    RegisteredAppend(pre + [mid], post);
    RegisteredAppend(pre, [mid]);
    RegisteredOne(mid);
  }

  lemma {:induction false} RemovedSplit(slots: Slots, depth: nat, o: Observer) returns (pre: Slots, post: Slots)
    requires NoDuplicates(slots) && Some(o) in slots
    ensures slots == pre + [Some(o)] + post && Some(o) !in pre && Some(o) !in post
    ensures Removed(slots, depth, o) == if depth > 0 then pre + [None] + post else pre + post
  {
    var i := Find(slots, o);
    pre, post := slots[..i], slots[i + 1..];
  }

  /** Removing an observer takes exactly that observer out of the registered ones, at any nesting depth. */
  lemma {:induction false} RegisteredRemoved(slots: Slots, depth: nat, o: Observer)
    requires NoDuplicates(slots)
    ensures Registered(Removed(slots, depth, o)) == Without(Registered(slots), o)
  {
    if Some(o) !in slots {
      WithoutAbsent(Registered(slots), o);
    } else {
      var pre, post := RemovedSplit(slots, depth, o);
      RegisteredWithout(pre, post, o);
    }
  }

  lemma {:induction false} NullIsSkipped(pre: Slots, post: Slots)
    ensures Registered(pre + [None] + post) == Registered(pre + post)
  {
    calc {
      Registered(pre + [None] + post);
    == { RegisteredSplit(pre, None, post); }
      Registered(pre) + [] + Registered(post);
    ==
      Registered(pre) + Registered(post);
    == { RegisteredAppend(pre, post); }
      Registered(pre + post);
    }
  }

  lemma {:induction false} RegisteredWithout(pre: Slots, post: Slots, o: Observer)
    requires Some(o) !in pre && Some(o) !in post
    ensures Without(Registered(pre + [Some(o)] + post), o) == Registered(pre + post) == Registered(pre + [None] + post)
  {
    var x, y := Registered(pre), Registered(post);
    calc {
      Without(Registered(pre + [Some(o)] + post), o);
    == { RegisteredSplit(pre, Some(o), post); }
      Without(x + [o] + y, o);
    == { WithoutMiddle(x, o, y); }
      x + y;
    == { RegisteredAppend(pre, post); }
      Registered(pre + post);
    }
    NullIsSkipped(pre, post);
  }

  /** os with every occurrence of o taken out. */
  function Without(os: seq<Observer>, o: Observer): seq<Observer> {
    if os == [] then []
    else if os[0] == o then Without(os[1..], o)
    else [os[0]] + Without(os[1..], o)
  }

  lemma {:induction false} WithoutAbsent(os: seq<Observer>, o: Observer)
    ensures o !in os ==> Without(os, o) == os
  {
    if os != [] { WithoutAbsent(os[1..], o); }
  }

  lemma {:induction false} WithoutMiddle(a: seq<Observer>, o: Observer, b: seq<Observer>)
    requires o !in a && o !in b
    ensures Without(a + [o] + b, o) == a + b
  {
    if a == [] {
      assert a + [o] + b == [o] + b;
      assert ([o] + b)[1..] == b;
      WithoutAbsent(b, o);
    } else {
      assert (a + [o] + b)[1..] == a[1..] + [o] + b;
      WithoutMiddle(a[1..], o, b);
    }
  }

  // ---------------------------------------------------------------- every step keeps the invariant

  lemma {:induction false} StableStep(w: World, op: Op)
    requires WorldOk(w) && Enabled(w, op)
    requires w.depth > 0 && Step(w, op).depth > 0
    ensures Stable(w.slots, Step(w, op).slots)
  {
  }

  lemma {:induction false} IterKept(w: World, w': World, it: Iter)
    requires IterOk(w, it) && Stable(w.slots, w'.slots) && w.existingOnly == w'.existingOnly
    ensures IterOk(w', it)
  {
    forall j | 0 <= j < it.index && w'.slots[j].Some?
      ensures (j, w'.slots[j].value) in it.log
    {
      assert w'.slots[j] == w.slots[j];
    }
  }

  lemma {:induction false} AdvanceOk(w: World, it: Iter)
    requires IterOk(w, it)
    ensures IterOk(w, Advance(w.slots, it))
  {
    var it' := Advance(w.slots, it);
    assert forall e :: e in it.log ==> e in it'.log;
    forall j | 0 <= j < it'.index && w.slots[j].Some?
      ensures (j, w.slots[j].value) in it'.log
    {
    }
  }

  lemma {:induction false} StepKeepsNoDuplicates(w: World, op: Op)
    requires WorldOk(w) && Enabled(w, op)
    ensures NoDuplicates(Step(w, op).slots)
  {
    RegisteredDistinct(w.slots);
  }

  lemma {:induction false} DepthPositive(w: World, id: nat)
    requires w.depth == |w.iters| && id in w.iters
    ensures w.depth > 0
  {
    assert |w.iters.Keys - {id}| == |w.iters.Keys| - 1;
  }

  lemma {:induction false} StepKeepsDepth(w: World, op: Op)
    requires w.depth == |w.iters| && Enabled(w, op)
    ensures Step(w, op).depth == |Step(w, op).iters|
  {
    var w' := Step(w, op);
    match op {
      case BeginOp(id) => assert w'.iters.Keys == w.iters.Keys + {id};
      case NextOp(id) => assert w'.iters.Keys == w.iters.Keys;
      case EndOp(id) =>
        DepthPositive(w, id);
        assert w'.iters.Keys == w.iters.Keys - {id};
      case _ =>
    }
  }

  /** An iterator that survives a step keeps its invariant. */
  lemma {:induction false} StepKeepsIter(w: World, op: Op, id: nat)
    requires WorldOk(w) && Enabled(w, op) && id in w.iters && op != EndOp(id)
    ensures id in Step(w, op).iters && IterOk(Step(w, op), Step(w, op).iters[id])
    ensures Stable(w.slots, Step(w, op).slots)
  {
    var w' := Step(w, op);
    StepKeepsDepth(w, op);
    DepthPositive(w, id);
    DepthPositive(w', id);
    StableStep(w, op);
    if op == NextOp(id) {
      AdvanceOk(w, w.iters[id]);
    } else {
      IterKept(w, w', w.iters[id]);
    }
  }

  lemma {:induction false} StepOk(w: World, op: Op)
    requires WorldOk(w) && Enabled(w, op)
    ensures WorldOk(Step(w, op))
  {
    var w' := Step(w, op);
    StepKeepsNoDuplicates(w, op);
    StepKeepsDepth(w, op);
    assert w'.depth == 0 ==> NoNulls(w'.slots);
    forall id | id in w'.iters ensures IterOk(w', w'.iters[id]) {
      if op == BeginOp(id) {
      } else {
        StepKeepsIter(w, op, id);
      }
    }
  }

  lemma {:induction false} RunOk(w: World, ops: seq<Op>)
    requires WorldOk(w) && EnabledAll(w, ops)
    ensures WorldOk(Run(w, ops))
    decreases |ops|
  {
    if ops != [] {
      StepOk(w, ops[0]);
      RunOk(Step(w, ops[0]), ops[1..]);
    }
  }

  /** In every run from an empty list notify_depth_ is the number of live iterators, and no null survives the last. */
  lemma {:induction false} DepthCountsIterators(existingOnly: bool, ops: seq<Op>)
    requires EnabledAll(Start(existingOnly), ops)
    ensures var w := Run(Start(existingOnly), ops);
      w.depth == |w.iters| && (w.depth == 0 ==> NoNulls(w.slots)) && NoDuplicates(w.slots)
  {
    RunOk(Start(existingOnly), ops);
  }

  // ---------------------------------------------------------------- iterations

  ghost predicate NeverEnds(ops: seq<Op>, id: nat) {
    EndOp(id) !in ops && BeginOp(id) !in ops
  }

  /** While an iterator lives, slots never shift, whatever else happens. */
  lemma {:induction false} SlotsNeverShift(w: World, ops: seq<Op>, id: nat)
    requires WorldOk(w) && EnabledAll(w, ops) && id in w.iters && NeverEnds(ops, id)
    ensures var w' := Run(w, ops);
      && id in w'.iters && Stable(w.slots, w'.slots)
      && w.iters[id].index <= w'.iters[id].index
      && w.iters[id].born == w'.iters[id].born
      && w.iters[id].log <= w'.iters[id].log
    decreases |ops|
  {
    if ops != [] {
      var m := Step(w, ops[0]);
      StepOk(w, ops[0]);
      assert ops[0] in ops;
      StepKeepsIter(w, ops[0], id);
      SlotsNeverShift(m, ops[1..], id);
    }
  }

  /** The iterator under its id returned its last observer: the next GetNext gives null. */
  predicate Finished(w: World, id: nat)
    requires id in w.iters
  {
    var it := w.iters[id];
    NextSlot(w.slots, it.index, it.maxIndex) >= Bound(w.slots, it.maxIndex)
  }

  /** Finished is that one more call of GetNext returns nothing. */
  lemma {:induction false} FinishedMeans(w: World, id: nat)
    requires id in w.iters
    ensures Finished(w, id) <==> Step(w, NextOp(id)).iters[id].log == w.iters[id].log
  {
  }

  lemma {:induction false} IndexFits(w: World, id: nat)
    requires WorldOk(w) && id in w.iters
    ensures w.iters[id].index <= |w.slots|
  {
    assert IterOk(w, w.iters[id]);
  }

  /** A call that returns something moves on; it leaves the slots alone. */
  lemma {:induction false} NextMovesOn(w: World, id: nat)
    requires WorldOk(w) && id in w.iters && !Finished(w, id)
    ensures var w' := Step(w, NextOp(id));
      WorldOk(w') && id in w'.iters && w'.slots == w.slots && w.iters[id].index < w'.iters[id].index
  {
    StepOk(w, NextOp(id));
  }

  lemma {:induction false} NextFirst(w: World, id: nat, later: seq<Op>)
    requires id in w.iters && EnabledAll(Step(w, NextOp(id)), later)
    ensures EnabledAll(w, [NextOp(id)] + later)
    ensures Run(w, [NextOp(id)] + later) == Run(Step(w, NextOp(id)), later)
  {
    assert ([NextOp(id)] + later)[1..] == later;
  }

  /** Calling GetNext often enough finishes an iteration. */
  lemma {:induction false} IterationEnds(w: World, id: nat) returns (ops: seq<Op>)
    requires WorldOk(w) && id in w.iters
    ensures (forall i :: 0 <= i < |ops| ==> ops[i] == NextOp(id)) && |ops| <= |w.slots| - w.iters[id].index
    ensures EnabledAll(w, ops) && id in Run(w, ops).iters && Finished(Run(w, ops), id)
    decreases |w.slots| - w.iters[id].index
  {
    ops := [];
    IndexFits(w, id);
    if !Finished(w, id) {
      NextMovesOn(w, id);
      var w' := Step(w, NextOp(id));
      IndexFits(w', id);
      var later := IterationEnds(w', id);
      NextFirst(w, id, later);
      ops := [NextOp(id)] + later;
    }
  }

  // ---------------------------------------------------------------- what was in a slot when it was reached

  /** What slot j held at the GetNext call of the run that moved the iterator past it; None if no call did. */
  function WhenReached(w: World, ops: seq<Op>, id: nat, j: nat): Option<Option<Observer>>
    requires EnabledAll(w, ops)
    decreases |ops|
  {
    if ops == [] then None
    else if ops[0] == NextOp(id) && w.iters[id].index <= j < Step(w, ops[0]).iters[id].index && j < |w.slots| then
      Some(w.slots[j])
    else WhenReached(Step(w, ops[0]), ops[1..], id, j)
  }

  /** One GetNext call returns what it finds in the one slot it stops behind, and passes only nulls before it. */
  lemma {:induction false} AdvanceReturns(w: World, it: Iter, j: nat, o: Observer)
    requires IterOk(w, it) && it.index <= j < |w.slots|
    ensures var it' := Advance(w.slots, it);
      && it.index <= it'.index <= |w.slots|
      && ((j, o) in it'.log <==> j < it'.index && w.slots[j] == Some(o))
  {
    var n := NextSlot(w.slots, it.index, it.maxIndex);
    assert (j, o) !in it.log;
    if n < Bound(w.slots, it.maxIndex) {
      assert Advance(w.slots, it).log == it.log + [(n, w.slots[n].value)];
    }
  }

  /** Behind the index the log of an iterator does not change any more. */
  lemma {:induction false} PassedForGood(w: World, ops: seq<Op>, id: nat, j: nat, o: Observer)
    requires WorldOk(w) && EnabledAll(w, ops) && id in w.iters && NeverEnds(ops, id) && j < w.iters[id].index
    ensures id in Run(w, ops).iters && j < Run(w, ops).iters[id].index
    ensures (j, o) in Run(w, ops).iters[id].log <==> (j, o) in w.iters[id].log
    ensures WhenReached(w, ops, id, j) == None
    decreases |ops|
  {
    if ops != [] {
      var m := Step(w, ops[0]);
      assert ops[0] in ops;
      StepOk(w, ops[0]);
      StepKeepsIter(w, ops[0], id);
      LogGrows(w, ops[0], id);
      LogStays(w, ops[0], id);
      PassedForGood(m, ops[1..], id, j, o);
    }
  }

  lemma {:induction false} LogStays(w: World, op: Op, id: nat)
    requires Enabled(w, op) && id in w.iters && op != EndOp(id) && op != BeginOp(id)
    ensures id in Step(w, op).iters && w.iters[id].log <= Step(w, op).iters[id].log
  {
  }

  lemma {:induction false} UntouchedByOthers(w: World, op: Op, id: nat)
    requires Enabled(w, op) && id in w.iters && op != EndOp(id) && op != BeginOp(id) && op != NextOp(id)
    ensures id in Step(w, op).iters && Step(w, op).iters[id] == w.iters[id]
  {
  }

  /**
    Over any run of a live iterator, with anything nested inside its callbacks: it returns the observer o of slot j
    exactly if o was in the slot when it was reached, whatever becomes of o afterwards; and it has reached just the
    slots below its index.
  */
  lemma {:induction false} ReturnsWhatItReaches(w: World, ops: seq<Op>, id: nat, j: nat, o: Observer)
    requires WorldOk(w) && EnabledAll(w, ops) && id in w.iters && NeverEnds(ops, id) && w.iters[id].index <= j
    ensures id in Run(w, ops).iters
    ensures (j, o) in Run(w, ops).iters[id].log <==> WhenReached(w, ops, id, j) == Some(Some(o))
    ensures j < Run(w, ops).iters[id].index <==> WhenReached(w, ops, id, j).Some?
    decreases |ops|
  {
    if ops != [] {
      var m := Step(w, ops[0]);
      assert ops[0] in ops;
      StepOk(w, ops[0]);
      StepKeepsIter(w, ops[0], id);
      if ops[0] == NextOp(id) {
        NextReturns(w, id, j, o);
        if j < m.iters[id].index {
          PassedForGood(m, ops[1..], id, j, o);
        } else {
          ReturnsWhatItReaches(m, ops[1..], id, j, o);
        }
      } else {
        UntouchedByOthers(w, ops[0], id);
        ReturnsWhatItReaches(m, ops[1..], id, j, o);
      }
    }
  }

  lemma {:induction false} NextReturns(w: World, id: nat, j: nat, o: Observer)
    requires WorldOk(w) && id in w.iters && w.iters[id].index <= j
    ensures var index := Step(w, NextOp(id)).iters[id].index;
      && index <= |w.slots|
      && (j < index ==> ((j, o) in Step(w, NextOp(id)).iters[id].log <==> w.slots[j] == Some(o)))
  {
    if j < |w.slots| {
      AdvanceReturns(w, w.iters[id], j, o);
    } else {
      AdvanceOk(w, w.iters[id]);
    }
  }

  /**
    A completed iteration, with anything nested inside its callbacks, has returned in slot order and at most once per
    registration exactly the observers that were registered when it reached their slots. The slots of its range it did
    not reach were null at the end; under NOTIFY_EXISTING_ONLY the range ends with the slots there at its creation.
  */
  lemma {:induction false} CompletedIteration(w: World, m: World, id: nat, ops: seq<Op>)
    requires WorldOk(w) && Enabled(w, BeginOp(id)) && m == Step(w, BeginOp(id))
    requires EnabledAll(m, ops) && NeverEnds(ops, id)
    requires id in Run(m, ops).iters && Finished(Run(m, ops), id)
    ensures Increasing(Run(m, ops).iters[id].log)
    ensures forall j: nat, o :: (j, o) in Run(m, ops).iters[id].log <==> WhenReached(m, ops, id, j) == Some(Some(o))
    ensures forall j: nat :: j < |Run(m, ops).slots| && (w.existingOnly ==> j < |w.slots|) ==>
      WhenReached(m, ops, id, j).Some? || Run(m, ops).slots[j] == None
    ensures forall j: nat :: w.existingOnly && j >= |w.slots| ==> WhenReached(m, ops, id, j) == None
  {
    var w' := Run(m, ops);
    StepOk(w, BeginOp(id));
    RunOk(m, ops);
    SlotsNeverShift(m, ops, id);
    SameKind(m, ops);
    var it := w'.iters[id];
    forall j: nat, o: Observer
      ensures (j, o) in it.log <==> WhenReached(m, ops, id, j) == Some(Some(o))
    {
      ReturnsWhatItReaches(m, ops, id, j, o);
    }
    forall j: nat ensures j < it.index <==> WhenReached(m, ops, id, j).Some? {
      ReturnsWhatItReaches(m, ops, id, j, 0);
    }
  }

  lemma {:induction false} RunSplit(w: World, p: seq<Op>, q: seq<Op>)
    requires EnabledAll(w, p + q)
    ensures EnabledAll(w, p) && EnabledAll(Run(w, p), q) && Run(w, p + q) == Run(Run(w, p), q)
    decreases |p|
  {
    if p == [] {
      assert p + q == q;
    } else {
      assert (p + q)[1..] == p[1..] + q;
      RunSplit(Step(w, p[0]), p[1..], q);
    }
  }

  /** An observer that was passed was returned, even if its callback removed it, and even if it was added again. */
  lemma {:induction false} PassedWasReturned(w: World, p: seq<Op>, q: seq<Op>, id: nat, j: nat, o: Observer)
    requires WorldOk(w) && EnabledAll(w, p) && EnabledAll(w, p + q) && id in w.iters && NeverEnds(p + q, id)
    requires id in Run(w, p).iters && j < |Run(w, p).slots|
    requires j < Run(w, p).iters[id].index && Run(w, p).slots[j] == Some(o)
    ensures id in Run(w, p + q).iters && (j, o) in Run(w, p + q).iters[id].log
  {
    RunSplit(w, p, q);
    RunOk(w, p);
    assert forall op :: op in q ==> op in p + q;
    assert (j, o) in Run(w, p).iters[id].log;
    SlotsNeverShift(Run(w, p), q, id);
  }

  /** The call that reached a slot, and what the slot held before it. */
  lemma {:induction false} ReachedByACall(w: World, ops: seq<Op>, id: nat, j: nat) returns (k: nat)
    requires EnabledAll(w, ops) && WhenReached(w, ops, id, j).Some?
    ensures k < |ops| && ops[k] == NextOp(id) && EnabledAll(w, ops[..k])
    ensures j < |Run(w, ops[..k]).slots| && WhenReached(w, ops, id, j) == Some(Run(w, ops[..k]).slots[j])
    decreases |ops|
  {
    if ops[0] == NextOp(id) && w.iters[id].index <= j < Step(w, ops[0]).iters[id].index && j < |w.slots| {
      k := 0;
      assert ops[..0] == [];
    } else {
      k := ReachedByACall(Step(w, ops[0]), ops[1..], id, j);
      k := k + 1;
      assert ops[..k][1..] == ops[1..][..k - 1];
    }
  }

  lemma {:induction false} SameKind(w: World, ops: seq<Op>)
    requires EnabledAll(w, ops)
    ensures Run(w, ops).existingOnly == w.existingOnly
    decreases |ops|
  {
    if ops != [] { SameKind(Step(w, ops[0]), ops[1..]); }
  }

  /** A registration that was dropped before the iterator reached its slot is never returned by it. */
  lemma {:induction false} DroppedBeforeReached(w: World, ops: seq<Op>, id: nat, j: nat)
    requires WorldOk(w) && EnabledAll(w, ops) && id in w.iters && NeverEnds(ops, id)
    requires w.iters[id].index <= j < |w.slots| && w.slots[j].None?
    ensures id in Run(w, ops).iters && forall e :: e in Run(w, ops).iters[id].log ==> e.0 != j
    decreases |ops|
  {
    if ops != [] {
      var m := Step(w, ops[0]);
      StepOk(w, ops[0]);
      assert ops[0] in ops;
      assert [ops[0]][1..] == [];
      assert Run(m, []) == m;
      SlotsNeverShift(w, [ops[0]], id);
      if m.iters[id].index <= j {
        DroppedBeforeReached(m, ops[1..], id, j);
      } else {
        PassedNull(m, ops[1..], id, j);
      }
    }
  }

  /** What a step can add to the log of an iterator lies at or after its index. */
  lemma {:induction false} LogGrows(w: World, op: Op, id: nat)
    requires Enabled(w, op) && id in w.iters && op != EndOp(id) && op != BeginOp(id)
    ensures var it, it' := w.iters[id], Step(w, op).iters[id];
      && id in Step(w, op).iters && it.index <= it'.index
      && forall e :: e in it'.log ==> e in it.log || e.0 >= it.index
  {
  }

  lemma {:induction false} PassedNull(w: World, ops: seq<Op>, id: nat, j: nat)
    requires EnabledAll(w, ops) && id in w.iters && NeverEnds(ops, id)
    requires j < w.iters[id].index && forall e :: e in w.iters[id].log ==> e.0 != j
    ensures id in Run(w, ops).iters && forall e :: e in Run(w, ops).iters[id].log ==> e.0 != j
    decreases |ops|
  {
    if ops != [] {
      assert ops[0] in ops;
      LogGrows(w, ops[0], id);
      PassedNull(Step(w, ops[0]), ops[1..], id, j);
    }
  }

  // ---------------------------------------------------------------- refinement of a plain list

  /** What the operations mean to a user who never looks at iteration: an ordered list of distinct observers. */
  function PlainStep(os: seq<Observer>, op: Op): seq<Observer> {
    match op
    case AddOp(o) => if o in os then os else os + [o]
    case RemoveOp(o) => Without(os, o)
    case ClearOp => []
    case _ => os
  }

  function PlainRun(os: seq<Observer>, ops: seq<Op>): seq<Observer>
    decreases |ops|
  {
    if ops == [] then os else PlainRun(PlainStep(os, ops[0]), ops[1..])
  }

  lemma {:induction false} RegisteredAdded(slots: Slots, o: Observer)
    ensures Registered(Added(slots, o)) == if o in Registered(slots) then Registered(slots) else Registered(slots) + [o]
  {
    RegisteredAppend(slots, [Some(o)]);
    RegisteredOne(Some(o));
  }

  lemma {:induction false} RegisteredCleared(slots: Slots, depth: nat)
    ensures Registered(Cleared(slots, depth)) == []
  {
    RegisteredOfNones(|slots|);
  }

  /** What an operation does to the slots. */
  function SlotsAfter(slots: Slots, depth: nat, op: Op): Slots {
    match op
    case AddOp(o) => Added(slots, o)
    case RemoveOp(o) => Removed(slots, depth, o)
    case ClearOp => Cleared(slots, depth)
    case EndOp(_) => if depth == 1 then Compacted(slots) else slots
    case _ => slots
  }

  lemma {:induction false} SlotsRefine(slots: Slots, depth: nat, op: Op)
    requires NoDuplicates(slots)
    ensures Registered(SlotsAfter(slots, depth, op)) == PlainStep(Registered(slots), op)
  {
    match op {
      case AddOp(o) => RegisteredAdded(slots, o);
      case RemoveOp(o) => RegisteredRemoved(slots, depth, o);
      case ClearOp => RegisteredCleared(slots, depth);
      case EndOp(id) => RegisteredAllSome(Registered(slots));
      case _ =>
    }
  }

  lemma {:induction false} StepSlots(w: World, op: Op)
    requires Enabled(w, op)
    ensures Step(w, op).slots == SlotsAfter(w.slots, w.depth, op)
  {
  }

  lemma {:induction false} StepRefines(w: World, op: Op)
    requires WorldOk(w) && Enabled(w, op)
    ensures Registered(Step(w, op).slots) == PlainStep(Registered(w.slots), op)
  {
    StepSlots(w, op);
    SlotsRefine(w.slots, w.depth, op);
  }

  /** Any run refines the plain list; once no iterator is left, the slots ARE that list, in order and without nulls. */
  lemma {:induction false} RunRefines(w: World, ops: seq<Op>)
    requires WorldOk(w) && EnabledAll(w, ops)
    ensures Registered(Run(w, ops).slots) == PlainRun(Registered(w.slots), ops)
    ensures Run(w, ops).depth == 0 ==> Run(w, ops).slots == AllSome(PlainRun(Registered(w.slots), ops))
    decreases |ops|
  {
    if ops == [] {
      if w.depth == 0 { RegisteredNoNulls(w.slots); }
    } else {
      StepOk(w, ops[0]);
      StepRefines(w, ops[0]);
      RunRefines(Step(w, ops[0]), ops[1..]);
    }
  }

  // ---------------------------------------------------------------- the mutable list

  class ObserverList {
    var observers: Slots
    var notifyDepth: nat
    const existingOnly: bool
    // False once the list is destroyed: every weak pointer to it then reads as null.
    var alive: bool

    constructor (existingOnly: bool)
      ensures observers == [] && notifyDepth == 0 && this.existingOnly == existingOnly && alive
    {
      this.observers, this.notifyDepth, this.existingOnly, this.alive := [], 0, existingOnly, true;
    }

    method Destroy()
      modifies this`alive
      ensures !alive
    {
      alive := false;
    }

    method AddObserver(obs: Observer)
      modifies this`observers
      ensures observers == Added(old(observers), obs)
    {
      if Some(obs) in observers {
        return;
      }
      observers := observers + [Some(obs)];
    }

    method RemoveObserver(obs: Observer)
      modifies this`observers
      ensures observers == Removed(old(observers), notifyDepth, obs)
    {
      var it := 0;
      while it < |observers| && observers[it] != Some(obs)
        invariant it <= |observers|
        invariant Some(obs) !in observers[..it]
      {
        assert observers[..it + 1] == observers[..it] + [observers[it]];
        it := it + 1;
      }
      FindIsFirst(observers, obs, it);
      if it != |observers| {
        if notifyDepth > 0 {
          observers := observers[it := None];
        } else {
          observers := observers[..it] + observers[it + 1..];
        }
      }
    }

    method HasObserver(observer: Observer) returns (r: bool)
      ensures r <==> Some(observer) in observers
    {
      var i := 0;
      while i < |observers|
        invariant i <= |observers|
        invariant forall j :: 0 <= j < i ==> observers[j] != Some(observer)
      {
        if observers[i] == Some(observer) {
          return true;
        }
        i := i + 1;
      }
      return false;
    }

    method Clear()
      modifies this`observers
      ensures observers == Cleared(old(observers), notifyDepth)
    {
      if notifyDepth > 0 {
        var it := 0;
        while it < |observers|
          invariant it <= |observers| == |old(observers)|
          invariant forall j :: 0 <= j < it ==> observers[j] == None
        {
          observers := observers[it := None];
          it := it + 1;
        }
      } else {
        observers := [];
      }
    }

    /** std::remove followed by erase. */
    method Compact()
      modifies this`observers
      ensures observers == Compacted(old(observers))
    {
      var kept, it := 0, 0;
      while it < |observers|
        invariant kept <= it <= |observers| == |old(observers)|
        invariant forall j :: it <= j < |observers| ==> observers[j] == old(observers)[j]
        invariant observers[..kept] == Compacted(old(observers)[..it])
      {
        CompactedNext(old(observers), it);
        if observers[it] != None {
          observers := observers[kept := observers[it]];
          kept := kept + 1;
        }
        it := it + 1;
      }
      assert old(observers)[..it] == old(observers);
      observers := observers[..kept];
    }
  }

  lemma {:induction false} CompactedNext(slots: Slots, it: nat)
    requires it < |slots|
    ensures Compacted(slots[..it + 1]) == Compacted(slots[..it]) + (if slots[it].Some? then [slots[it]] else [])
  {
    assert slots[..it + 1][..it] == slots[..it];
    assert Compacted(slots[..it]) + [] == Compacted(slots[..it]);
  }

  lemma {:induction false} FindIsFirst(slots: Slots, o: Observer, i: nat)
    requires i <= |slots| && Some(o) !in slots[..i] && (i < |slots| ==> slots[i] == Some(o))
    ensures i == Find(slots, o)
  {
    if i > 0 {
      assert slots[0] in slots[..i];
      assert slots[1..][..i - 1] == slots[..i][1..];
      FindIsFirst(slots[1..], o, i - 1);
    }
  }

  class Iterator {
    const list: ObserverList
    var index: nat
    var maxIndex: Option<nat>

    constructor (list: ObserverList)
      modifies list`notifyDepth
      ensures this.list == list && index == 0
      ensures maxIndex == if list.existingOnly then Some(|list.observers|) else None
      ensures list.notifyDepth == old(list.notifyDepth) + 1
    {
      this.list, this.index := list, 0;
      this.maxIndex := if list.existingOnly then Some(|list.observers|) else None;
      new;
      list.notifyDepth := list.notifyDepth + 1;
    }

    /** The destructor: the last iterator to go compacts the list. */
    method Close()
      requires list.notifyDepth > 0
      modifies list`notifyDepth, list`observers
      ensures !list.alive ==> unchanged(list)
      ensures list.alive ==> list.notifyDepth == old(list.notifyDepth) - 1
      ensures list.alive && list.notifyDepth == 0 ==> list.observers == Compacted(old(list.observers))
      ensures list.alive && list.notifyDepth > 0 ==> list.observers == old(list.observers)
    {
      if list.alive {
        list.notifyDepth := list.notifyDepth - 1;
        if list.notifyDepth == 0 {
          list.Compact();
        }
      }
    }

    /** Returns what one NextOp of the run model returns and moves the index the same way. */
    method GetNext() returns (obs: Option<Observer>)
      modifies this`index
      ensures !list.alive ==> obs == None && index == old(index)
      ensures list.alive ==>
        var n := NextSlot(list.observers, old(index), maxIndex);
        if n < Bound(list.observers, maxIndex) then obs == list.observers[n] && obs.Some? && index == n + 1
        else obs == None && index == n
    {
      if !list.alive {
        return None;
      }
      var max := match maxIndex
        case None => |list.observers|
        case Some(m) => if m < |list.observers| then m else |list.observers|;
      while index < max && list.observers[index].None?
        invariant max == Bound(list.observers, maxIndex)
        invariant NextSlot(list.observers, index, maxIndex) == NextSlot(list.observers, old(index), maxIndex)
      {
        index := index + 1;
      }
      if index < max {
        obs := list.observers[index];
        index := index + 1;
      } else {
        obs := None;
      }
    }
  }
}
