/**
  src/base/id_map.h: a table from ids to pointers whose entries may be removed while it is being iterated.

  As in ObserverLists, the first half is the meaning of the operations and of whole runs of them, the second half the
  mutable table and its iterator. A pointer is a number. The table's entries stand in its traversal order, which a
  hash table does not choose by id: an insertion puts its entry anywhere.
*/
module IdMaps {
  import opened Options

  type Pointer = nat

  datatype Entry = Entry(id: int, value: Pointer)

  // ---------------------------------------------------------------- entries

  predicate Distinct(data: seq<Entry>) {
    forall i, j :: 0 <= i < j < |data| ==> data[i].id != data[j].id
  }

  function Ids(data: seq<Entry>): set<int> {
    set i | 0 <= i < |data| :: data[i].id
  }

  /** data_.find: where the id is. */
  function Find(data: seq<Entry>, id: int): (at: Option<nat>)
    ensures at.Some? ==> at.value < |data| && data[at.value].id == id
    ensures at.None? ==> forall i :: 0 <= i < |data| ==> data[i].id != id
  {
    if data == [] then None
    else if data[|data| - 1].id == id then Some(|data| - 1)
    else Find(data[..|data| - 1], id)
  }

  function Get(data: seq<Entry>, id: int): (v: Option<Pointer>)
    ensures v.Some? <==> id in Ids(data)
  {
    var at := Find(data, id);
    if at.Some? then Some(data[at.value].value) else None
  }

  function Values(data: seq<Entry>): (v: seq<Pointer>)
    ensures |v| == |data|
  {
    seq(|data|, i requires 0 <= i < |data| => data[i].value)
  }

  /** The entries whose id is not among the given ones. */
  function Without(data: seq<Entry>, ids: set<int>): (r: seq<Entry>)
    ensures forall i :: 0 <= i < |r| ==> r[i].id !in ids
  {
    if data == [] then []
    else
      var last := data[|data| - 1];
      Without(data[..|data| - 1], ids) + (if last.id in ids then [] else [last])
  }

  function Inserted(data: seq<Entry>, e: Entry, at: nat): seq<Entry>
    requires at <= |data|
  {
    data[..at] + [e] + data[at..]
  }

  /** The entries that have not been removed, as a plain map. */
  function Live(data: seq<Entry>, removed: set<int>): map<int, Pointer> {
    map id | id in Ids(data) && id !in removed :: Get(data, id).value
  }

  // ---------------------------------------------------------------- the table

  /**
    The fields of an IDMap; and, for the accounting, every pointer it was given, the ones that Replace handed back, and
    the ones it deleted.
  */
  datatype Table = Table(
    owning: bool, data: seq<Entry>, removed: set<int>, depth: nat, nextId: int,
    given: multiset<Pointer>, handedBack: multiset<Pointer>, deleted: multiset<Pointer>)

  /** Takes entries out of the table; an owning one deletes what they point to. */
  function Dropped(t: Table, ids: set<int>): Table {
    var kept := Without(t.data, ids);
    t.(data := kept,
       deleted := if t.owning then t.deleted + (multiset(Values(t.data)) - multiset(Values(kept))) else t.deleted)
  }

  function Added(t: Table, id: int, value: Pointer, at: nat): Table
    requires at <= |t.data|
  {
    t.(data := Inserted(t.data, Entry(id, value), at), given := t.given + multiset{value})
  }

  function Removed(t: Table, id: int): Table {
    if id !in Ids(t.data) then t
    else if t.depth == 0 then Dropped(t, {id})
    else t.(removed := t.removed + {id})
  }

  function Replaced(t: Table, id: int, value: Pointer): Table {
    var at := Find(t.data, id);
    if at.None? then t
    else t.(data := t.data[at.value := Entry(id, value)],
            given := t.given + multiset{value}, handedBack := t.handedBack + multiset{t.data[at.value].value})
  }

  /** With no iteration under way, clearing is left to the owner of the objects: it does nothing unless it owns them. */
  function Cleared(t: Table): Table {
    if t.depth > 0 then t.(removed := t.removed + Ids(t.data))
    else if t.owning then Dropped(t, Ids(t.data))
    else t
  }

  function Compacted(t: Table): Table {
    Dropped(t, t.removed).(removed := {})
  }

  function Closed(t: Table): Table {
    if t.depth == 1 then Compacted(t.(depth := 0)) else t.(depth := if t.depth == 0 then 0 else t.depth - 1)
  }

  function Destroyed(t: Table): Table {
    if t.owning then Dropped(t, Ids(t.data)) else t
  }

  /** Where SkipRemovedEntries stops. */
  function Skip(data: seq<Entry>, removed: set<int>, at: nat): (r: nat)
    requires at <= |data|
    ensures at <= r <= |data| && (r < |data| ==> data[r].id !in removed)
    ensures forall i :: at <= i < r ==> data[i].id in removed
    decreases |data| - at
  {
    if at < |data| && data[at].id in removed then Skip(data, removed, at + 1) else at
  }

  // ---------------------------------------------------------------- what the functions do to the plain map

  lemma {:induction false} IdsOfLast(data: seq<Entry>, last: Entry)
    ensures Ids(data + [last]) == Ids(data) + {last.id}
    ensures Values(data + [last]) == Values(data) + [last.value]
    ensures Distinct(data + [last]) <==> Distinct(data) && last.id !in Ids(data)
    ensures forall id :: Get(data + [last], id) == if id == last.id then Some(last.value) else Get(data, id)
  {
    var all := data + [last];
    assert all[..|data|] == data;
    assert all[|data|] == last;
    forall id | id in Ids(data) ensures id in Ids(all) {
      var i :| 0 <= i < |data| && data[i].id == id;
      assert all[i].id == id;
    }
    if Distinct(all) {
      assert forall i :: 0 <= i < |data| ==> all[i] == data[i];
    }
  }

  lemma {:induction false} WithoutIds(data: seq<Entry>, ids: set<int>)
    ensures Ids(Without(data, ids)) == Ids(data) - ids
    ensures Distinct(data) ==> Distinct(Without(data, ids))
    decreases |data|
  {
    if data != [] {
      var init, last := data[..|data| - 1], data[|data| - 1];
      assert data == init + [last];
      WithoutIds(init, ids);
      IdsOfLast(init, last);
      IdsOfLast(Without(init, ids), last);
      assert Without(init, ids) + [] == Without(init, ids);
    }
  }

  lemma {:induction false} WithoutGet(data: seq<Entry>, ids: set<int>, id: int)
    ensures Get(Without(data, ids), id) == if id in ids then None else Get(data, id)
    decreases |data|
  {
    if data != [] {
      var init, last := data[..|data| - 1], data[|data| - 1];
      assert data == init + [last];
      WithoutGet(init, ids, id);
      IdsOfLast(init, last);
      IdsOfLast(Without(init, ids), last);
      assert Without(init, ids) + [] == Without(init, ids);
    }
  }

  lemma {:induction false} WithoutValues(data: seq<Entry>, ids: set<int>)
    ensures multiset(Values(Without(data, ids))) <= multiset(Values(data))
    decreases |data|
  {
    if data != [] {
      var init, last := data[..|data| - 1], data[|data| - 1];
      assert data == init + [last];
      WithoutValues(init, ids);
      IdsOfLast(init, last);
      IdsOfLast(Without(init, ids), last);
      assert Without(init, ids) + [] == Without(init, ids);
    }
  }

  lemma {:induction false} WithoutTwice(data: seq<Entry>, a: set<int>, b: set<int>)
    ensures Without(Without(data, a), b) == Without(data, a + b)
    decreases |data|
  {
    if data != [] {
      var init, last := data[..|data| - 1], data[|data| - 1];
      WithoutTwice(init, a, b);
      var kept := Without(init, a);
      if last.id !in a { assert (kept + [last])[..|kept|] == kept; }
      assert kept + [] == kept;
    }
  }

  lemma {:induction false} WithoutOthers(data: seq<Entry>, ids: set<int>)
    requires ids !! Ids(data)
    ensures Without(data, ids) == data
    decreases |data|
  {
    if data != [] {
      var init, last := data[..|data| - 1], data[|data| - 1];
      assert data == init + [last];
      IdsOfLast(init, last);
      WithoutOthers(init, ids);
    }
  }

  lemma {:induction false} WithoutAll(data: seq<Entry>, ids: set<int>)
    requires Ids(data) <= ids
    ensures Without(data, ids) == []
    decreases |data|
  {
    if data != [] {
      var init, last := data[..|data| - 1], data[|data| - 1];
      assert data == init + [last];
      IdsOfLast(init, last);
      WithoutAll(init, ids);
    }
  }

  /** Erasing one entry in place. */
  lemma {:induction false} EraseIsWithout(data: seq<Entry>, at: nat)
    requires Distinct(data) && at < |data|
    ensures data[..at] + data[at + 1..] == Without(data, {data[at].id})
    decreases |data|
  {
    var init, last := data[..|data| - 1], data[|data| - 1];
    if at == |data| - 1 {
      WithoutOthers(init, {last.id});
      assert data[at + 1..] == [];
    } else {
      EraseIsWithout(init, at);
      assert data[..at] + data[at + 1..] == (init[..at] + init[at + 1..]) + [last];
    }
  }

  lemma {:induction false} InsertedFacts(data: seq<Entry>, e: Entry, at: nat)
    requires Distinct(data) && e.id !in Ids(data) && at <= |data|
    ensures Distinct(Inserted(data, e, at)) && Ids(Inserted(data, e, at)) == Ids(data) + {e.id}
    ensures forall id :: Get(Inserted(data, e, at), id) == if id == e.id then Some(e.value) else Get(data, id)
    decreases |data|
  {
    if at == |data| {
      assert Inserted(data, e, at) == data + [e];
      IdsOfLast(data, e);
    } else {
      var init, last := data[..|data| - 1], data[|data| - 1];
      assert data == init + [last];
      IdsOfLast(init, last);
      InsertedFacts(init, e, at);
      IdsOfLast(Inserted(init, e, at), last);
      assert Inserted(data, e, at) == Inserted(init, e, at) + [last];
    }
  }

  lemma {:induction false} InsertedValues(data: seq<Entry>, e: Entry, at: nat)
    requires at <= |data|
    ensures multiset(Values(Inserted(data, e, at))) == multiset(Values(data)) + multiset{e.value}
  {
    var a, b := Values(data)[..at], Values(data)[at..];
    assert Values(data) == a + b;
    assert Values(Inserted(data, e, at)) == a + [e.value] + b;
  }

  lemma {:induction false} ReplacedFacts(data: seq<Entry>, at: nat, e: Entry)
    requires Distinct(data) && at < |data| && data[at].id == e.id
    ensures Distinct(data[at := e]) && Ids(data[at := e]) == Ids(data)
    ensures forall id :: Get(data[at := e], id) == if id == e.id then Some(e.value) else Get(data, id)
    decreases |data|
  {
    var init, last := data[..|data| - 1], data[|data| - 1];
    assert data == init + [last];
    IdsOfLast(init, last);
    if at == |data| - 1 {
      IdsOfLast(init, e);
      assert data[at := e] == init + [e];
    } else {
      ReplacedFacts(init, at, e);
      IdsOfLast(init[at := e], last);
      assert data[at := e] == init[at := e] + [last];
    }
  }

  lemma {:induction false} ReplacedValues(data: seq<Entry>, at: nat, e: Entry)
    requires at < |data|
    ensures multiset(Values(data[at := e])) + multiset{data[at].value} == multiset(Values(data)) + multiset{e.value}
  {
    var a, b := Values(data)[..at], Values(data)[at + 1..];
    assert Values(data) == a + [data[at].value] + b;
    assert Values(data[at := e]) == a + [e.value] + b;
  }

  // ---------------------------------------------------------------- what every operation keeps

  /** Removed ids are ids of the table, and there are none unless an iteration is under way. */
  ghost predicate Sound(t: Table) {
    && Distinct(t.data) && t.removed <= Ids(t.data) && (t.depth == 0 ==> t.removed == {})
  }

  /**
    Of the pointers given to an owning table, each is in it, was handed back, or was deleted, as often as it was given;
    a table that does not own them deletes none.
  */
  ghost predicate Balanced(t: Table) {
    if t.owning then t.given == t.handedBack + t.deleted + multiset(Values(t.data)) else t.deleted == multiset{}
  }

  lemma {:induction false} WithoutLive(data: seq<Entry>, ids: set<int>, removed: set<int>)
    ensures Live(Without(data, ids), removed) == Live(data, removed + ids)
  {
    WithoutIds(data, ids);
    var x, y := Live(Without(data, ids), removed), Live(data, removed + ids);
    forall id | id in x ensures x[id] == y[id] { WithoutGet(data, ids, id); }
    assert x.Keys == y.Keys;
  }

  lemma {:induction false} DroppedKeeps(t: Table, ids: set<int>)
    requires Distinct(t.data)
    ensures Distinct(Dropped(t, ids).data) && Ids(Dropped(t, ids).data) == Ids(t.data) - ids
    ensures Balanced(t) ==> Balanced(Dropped(t, ids))
  {
    WithoutIds(t.data, ids);
    WithoutValues(t.data, ids);
  }

  lemma {:induction false} RemovedKeeps(t: Table, id: int)
    requires Sound(t)
    ensures Sound(Removed(t, id)) && (Balanced(t) ==> Balanced(Removed(t, id)))
    ensures Live(Removed(t, id).data, Removed(t, id).removed) == Live(t.data, t.removed) - {id}
  {
    var r := Removed(t, id);
    DroppedKeeps(t, {id});
    WithoutLive(t.data, {id}, t.removed);
    assert Live(r.data, r.removed) == Live(t.data, t.removed + {id});
    assert Live(t.data, t.removed + {id}) == Live(t.data, t.removed) - {id};
  }

  lemma {:induction false} AddedKeeps(t: Table, id: int, value: Pointer, at: nat)
    requires Sound(t) && id !in Ids(t.data) && at <= |t.data|
    ensures Sound(Added(t, id, value, at)) && (Balanced(t) ==> Balanced(Added(t, id, value, at)))
    ensures Live(Added(t, id, value, at).data, t.removed) == Live(t.data, t.removed)[id := value]
  {
    InsertedFacts(t.data, Entry(id, value), at);
    InsertedValues(t.data, Entry(id, value), at);
  }

  lemma {:induction false} Exchange(given: multiset<Pointer>, back: multiset<Pointer>, deleted: multiset<Pointer>,
                                    before: multiset<Pointer>, after: multiset<Pointer>, x: Pointer, y: Pointer)
    requires given == back + deleted + before && after + multiset{x} == before + multiset{y}
    ensures given + multiset{y} == (back + multiset{x}) + deleted + after
  {
    calc {
      given + multiset{y};
      back + deleted + (before + multiset{y});
      back + deleted + (after + multiset{x});
      (back + multiset{x}) + deleted + after;
    }
  }

  lemma {:induction false} ReplacedKeeps(t: Table, id: int, value: Pointer)
    requires Sound(t)
    ensures Sound(Replaced(t, id, value)) && (Balanced(t) ==> Balanced(Replaced(t, id, value)))
    ensures |Replaced(t, id, value).data| == |t.data| && Ids(Replaced(t, id, value).data) == Ids(t.data)
  {
    var at := Find(t.data, id);
    if at.Some? {
      var e, x := Entry(id, value), t.data[at.value].value;
      ReplacedFacts(t.data, at.value, e);
      ReplacedValues(t.data, at.value, e);
      if t.owning && Balanced(t) {
        Exchange(t.given, t.handedBack, t.deleted,
                 multiset(Values(t.data)), multiset(Values(t.data[at.value := e])), x, value);
      }
    }
  }

  lemma {:induction false} LiveOfChanged(data: seq<Entry>, changed: seq<Entry>, removed: set<int>, e: Entry)
    requires Ids(changed) == Ids(data) && e.id in Ids(data)
    requires forall id :: Get(changed, id) == if id == e.id then Some(e.value) else Get(data, id)
    ensures Live(changed, removed)
      == if e.id in removed then Live(data, removed) else Live(data, removed)[e.id := e.value]
  {
    var x, y := Live(changed, removed), Live(data, removed);
    assert x.Keys == y.Keys;
    forall id | id in x ensures x[id] == if id == e.id then e.value else y[id] {
      assert x[id] == Get(changed, id).value;
    }
  }

  lemma {:induction false} ReplacedLive(t: Table, id: int, value: Pointer)
    requires Sound(t)
    ensures Live(Replaced(t, id, value).data, t.removed)
      == if id in Live(t.data, t.removed) then Live(t.data, t.removed)[id := value] else Live(t.data, t.removed)
  {
    var at := Find(t.data, id);
    if at.Some? {
      ReplacedFacts(t.data, at.value, Entry(id, value));
      LiveOfChanged(t.data, t.data[at.value := Entry(id, value)], t.removed, Entry(id, value));
    }
  }

  /** Whether Clear has anything to do it cannot do. */
  predicate ClearIsIgnored(t: Table) {
    !t.owning && t.depth == 0 && t.data != []
  }

  lemma {:induction false} ClearedKeeps(t: Table)
    requires Sound(t)
    ensures Sound(Cleared(t)) && (Balanced(t) ==> Balanced(Cleared(t)))
    ensures Live(Cleared(t).data, Cleared(t).removed) == map[] <==> !ClearIsIgnored(t)
  {
    DroppedKeeps(t, Ids(t.data));
    var live := Live(Cleared(t).data, Cleared(t).removed);
    if ClearIsIgnored(t) {
      assert t.data[0].id in Ids(t.data);
      assert t.data[0].id in live;
    } else if t.data == [] {
      assert live == map[];
    } else {
      assert live.Keys == {};
    }
  }

  /** A map that does not own its objects keeps them when it is cleared outside an iteration. */
  lemma {:induction false} ClearLeavesEntries(t: Table)
    requires t == Table(false, [Entry(1, 7)], {}, 0, 2, multiset{7}, multiset{}, multiset{})
    ensures Sound(t) && Balanced(t) && Live(t.data, t.removed) == map[1 := 7]
    ensures Cleared(t) == t
  {
    assert t.data[0].id == 1;
    assert Ids(t.data) == {1};
  }

  lemma {:induction false} ClosedKeeps(t: Table)
    requires Sound(t) && t.depth > 0
    ensures Sound(Closed(t)) && (Balanced(t) ==> Balanced(Closed(t)))
    ensures Live(Closed(t).data, Closed(t).removed) == Live(t.data, t.removed)
  {
    DroppedKeeps(t, t.removed);
    WithoutLive(t.data, t.removed, {});
    assert t.removed + {} == t.removed && {} + t.removed == t.removed;
  }

  /** Once the table is destroyed, every pointer it was given has been handed back or deleted exactly once. */
  lemma {:induction false} DestroyedBalances(t: Table)
    requires Sound(t) && Balanced(t)
    ensures t.owning ==> Destroyed(t).given == Destroyed(t).handedBack + Destroyed(t).deleted
    ensures !t.owning ==> Destroyed(t).deleted == multiset{}
  {
    WithoutAll(t.data, Ids(t.data));
    DroppedKeeps(t, Ids(t.data));
    if t.owning {
      assert Destroyed(t).data == [];
      assert Values(Destroyed(t).data) == [];
    }
  }

  lemma {:induction false} IdsCount(data: seq<Entry>)
    requires Distinct(data)
    ensures |Ids(data)| == |data|
    decreases |data|
  {
    if data == [] {
      assert Ids(data) == {};
    } else {
      var init, last := data[..|data| - 1], data[|data| - 1];
      assert data == init + [last];
      IdsOfLast(init, last);
      IdsCount(init);
    }
  }

  /** size() counts what is live. */
  lemma {:induction false} SizeIsLive(t: Table)
    requires Sound(t)
    ensures |t.data| - |t.removed| == |Live(t.data, t.removed)|
  {
    IdsCount(t.data);
    var live := Live(t.data, t.removed);
    assert live.Keys == Ids(t.data) - t.removed;
    assert |live| == |live.Keys|;
  }

  // ---------------------------------------------------------------- runs

  /** One iterator: where it stands, and (for the proofs) all the places where it, or what it was copied from, stood. */
  datatype Iter = Iter(at: nat, visited: seq<nat>)

  datatype World = World(table: Table, iters: map<nat, Iter>)

  datatype Op =
    | AddOp(value: Pointer, at: nat)
    | AddWithIdOp(value: Pointer, id: int, at: nat)
    | RemoveOp(id: int)
    | ReplaceOp(id: int, value: Pointer)
    | ClearOp
    | BeginOp(name: nat)
    | CopyOp(name: nat, from: nat)
    | AdvanceOp(name: nat)
    | EndOp(name: nat)

  /** Nothing is inserted during an iteration or under an id in use; iterators are used while they live. */
  predicate Enabled(w: World, op: Op) {
    match op
    case AddOp(_, at) => w.iters == map[] && at <= |w.table.data| && w.table.nextId !in Ids(w.table.data)
    case AddWithIdOp(_, id, at) => w.iters == map[] && at <= |w.table.data| && id !in Ids(w.table.data)
    case BeginOp(name) => name !in w.iters
    case CopyOp(name, from) => name !in w.iters && from in w.iters && w.iters[from].at <= |w.table.data|
    case AdvanceOp(name) => name in w.iters && w.iters[name].at < |w.table.data|
    case EndOp(name) => name in w.iters
    case _ => true
  }

  /** The iterator moves to where SkipRemovedEntries stops, looking from a place on. */
  function Moved(t: Table, visited: seq<nat>, from: nat): (it: Iter)
    requires from <= |t.data|
  {
    var n := Skip(t.data, t.removed, from);
    Iter(n, if n < |t.data| then visited + [n] else visited)
  }

  function Copied(t: Table, it: Iter): Iter
    requires it.at <= |t.data|
  {
    if Skip(t.data, t.removed, it.at) == it.at then it else Moved(t, it.visited, it.at)
  }

  function Step(w: World, op: Op): World
    requires Enabled(w, op)
  {
    var t := w.table;
    match op
    case AddOp(value, at) => w.(table := Added(t, t.nextId, value, at).(nextId := t.nextId + 1))
    case AddWithIdOp(value, id, at) => w.(table := Added(t, id, value, at))
    case RemoveOp(id) => w.(table := Removed(t, id))
    case ReplaceOp(id, value) => w.(table := Replaced(t, id, value))
    case ClearOp => w.(table := Cleared(t))
    case BeginOp(name) => World(t.(depth := t.depth + 1), w.iters[name := Moved(t, [], 0)])
    case CopyOp(name, from) => World(t.(depth := t.depth + 1), w.iters[name := Copied(t, w.iters[from])])
    case AdvanceOp(name) => World(t, w.iters[name := Moved(t, w.iters[name].visited, w.iters[name].at + 1)])
    case EndOp(name) => World(Closed(t), w.iters - {name})
  }

  /**
    The places visited go up; the iterator stands on the last one or is at the end; and every entry it has passed was
    visited or is removed by now.
  */
  ghost predicate IterOk(t: Table, it: Iter) {
    && it.at <= |t.data|
    && (forall i, j :: 0 <= i < j < |it.visited| ==> it.visited[i] < it.visited[j])
    && (forall i :: 0 <= i < |it.visited| ==> it.visited[i] <= it.at && it.visited[i] < |t.data|)
    && (forall p :: 0 <= p < it.at ==> p in it.visited || t.data[p].id in t.removed)
    && (it.at < |t.data| ==> it.at in it.visited)
  }

  ghost predicate WorldOk(w: World) {
    && Sound(w.table) && Balanced(w.table) && w.table.depth == |w.iters|
    && forall name :: name in w.iters ==> IterOk(w.table, w.iters[name])
  }

  lemma {:induction false} MovedOk(t: Table, it: Iter, from: nat)
    requires IterOk(t, it) && it.at <= from <= it.at + 1 && from <= |t.data|
    requires from == it.at ==> it.at < |t.data| && t.data[it.at].id in t.removed
    ensures IterOk(t, Moved(t, it.visited, from))
  {
    var n := Skip(t.data, t.removed, from);
    var next := Moved(t, it.visited, from);
    forall p | 0 <= p < n ensures p in next.visited || t.data[p].id in t.removed {
      if p in it.visited {
        var k :| 0 <= k < |it.visited| && it.visited[k] == p;
        assert next.visited[k] == p;
      }
    }
    if n < |t.data| { assert next.visited[|it.visited|] == n; }
  }

  lemma {:induction false} AdvancedOk(t: Table, it: Iter)
    requires IterOk(t, it) && it.at < |t.data|
    ensures IterOk(t, Moved(t, it.visited, it.at + 1))
  {
    MovedOk(t, it, it.at + 1);
  }

  lemma {:induction false} BegunOk(t: Table)
    ensures IterOk(t, Moved(t, [], 0))
  {
    var n := Skip(t.data, t.removed, 0);
    var it := Iter(n, if n < |t.data| then [n] else []);
    assert IterOk(t, it);
    assert [] + [n] == [n];
  }

  /** What an iterator is promised does not depend on the values, and removing more ids cannot break it. */
  lemma {:induction false} IterKept(t: Table, t': Table, it: Iter)
    requires IterOk(t, it) && |t'.data| == |t.data| && t.removed <= t'.removed
    requires forall i :: 0 <= i < |t.data| ==> t'.data[i].id == t.data[i].id
    ensures IterOk(t', it)
  {
  }

  lemma {:induction false} EditOk(w: World, op: Op)
    requires WorldOk(w) && Enabled(w, op) && (op.RemoveOp? || op.ReplaceOp? || op.ClearOp?)
    ensures WorldOk(Step(w, op))
  {
    var t, t' := w.table, Step(w, op).table;
    match op {
      case RemoveOp(id) => RemovedKeeps(t, id);
      case ReplaceOp(id, value) => ReplacedKeeps(t, id, value);
      case ClearOp => ClearedKeeps(t);
    }
    if t.depth > 0 {
      forall name | name in w.iters ensures IterOk(t', w.iters[name]) {
        IterKept(t, t', w.iters[name]);
      }
    }
  }

  /** A new iterator leaves the rest of the world as it is. */
  lemma {:induction false} IteratorAdded(w: World, name: nat, it: Iter, depth: nat)
    requires WorldOk(w) && IterOk(w.table, it) && name !in w.iters && depth == w.table.depth + 1
    ensures WorldOk(World(w.table.(depth := depth), w.iters[name := it]))
  {
    var w' := World(w.table.(depth := depth), w.iters[name := it]);
    forall other | other in w'.iters ensures IterOk(w'.table, w'.iters[other]) {
      IterKept(w.table, w'.table, w'.iters[other]);
    }
  }

  lemma {:induction false} BeginOk(w: World, name: nat)
    requires WorldOk(w) && Enabled(w, BeginOp(name))
    ensures WorldOk(Step(w, BeginOp(name)))
  {
    BegunOk(w.table);
    IteratorAdded(w, name, Moved(w.table, [], 0), w.table.depth + 1);
  }

  lemma {:induction false} CopyOk(w: World, name: nat, from: nat)
    requires WorldOk(w) && Enabled(w, CopyOp(name, from))
    ensures WorldOk(Step(w, CopyOp(name, from)))
  {
    var it := w.iters[from];
    if Copied(w.table, it) != it { MovedOk(w.table, it, it.at); }
    IteratorAdded(w, name, Copied(w.table, it), w.table.depth + 1);
  }

  lemma {:induction false} AdvanceMoves(w: World, name: nat, other: nat)
    requires Enabled(w, AdvanceOp(name)) && other in w.iters
    requires IterOk(w.table, w.iters[name]) && IterOk(w.table, w.iters[other])
    ensures other in Step(w, AdvanceOp(name)).iters && IterOk(w.table, Step(w, AdvanceOp(name)).iters[other])
  {
    if other == name { AdvancedOk(w.table, w.iters[name]); }
  }

  lemma {:induction false} AdvanceOk(w: World, name: nat)
    requires WorldOk(w) && Enabled(w, AdvanceOp(name))
    ensures WorldOk(Step(w, AdvanceOp(name)))
  {
    var w' := Step(w, AdvanceOp(name));
    forall other | other in w'.iters ensures IterOk(w'.table, w'.iters[other]) {
      AdvanceMoves(w, name, other);
    }
    assert w'.iters.Keys == w.iters.Keys;
  }

  lemma {:induction false} EndOk(w: World, name: nat)
    requires WorldOk(w) && name in w.iters
    ensures WorldOk(Step(w, EndOp(name)))
  {
    var w' := Step(w, EndOp(name));
    ClosedKeeps(w.table);
    if |w.iters| > 1 {
      forall other | other in w'.iters ensures IterOk(w'.table, w'.iters[other]) {
        IterKept(w.table, w'.table, w.iters[other]);
      }
    } else {
      assert w'.iters == map[];
    }
  }

  /** Every operation, at any nesting of iterations, keeps all of it. */
  lemma {:induction false} StepOk(w: World, op: Op)
    requires WorldOk(w) && Enabled(w, op)
    ensures WorldOk(Step(w, op))
  {
    match op {
      case AddOp(value, at) => AddedKeeps(w.table, w.table.nextId, value, at);
      case AddWithIdOp(value, id, at) => AddedKeeps(w.table, id, value, at);
      case EndOp(name) => EndOk(w, name);
      case RemoveOp(_) => EditOk(w, op);
      case ReplaceOp(_, _) => EditOk(w, op);
      case ClearOp => EditOk(w, op);
      case BeginOp(name) => BeginOk(w, name);
      case CopyOp(name, from) => CopyOk(w, name, from);
      case AdvanceOp(name) => AdvanceOk(w, name);
    }
  }

  /** The map that removes at once. */
  function PlainStep(m: map<int, Pointer>, op: Op, nextId: int): map<int, Pointer> {
    match op
    case AddOp(value, _) => m[nextId := value]
    case AddWithIdOp(value, id, _) => m[id := value]
    case RemoveOp(id) => m - {id}
    case ReplaceOp(id, value) => if id in m then m[id := value] else m
    case ClearOp => map[]
    case _ => m
  }

  function LiveOf(w: World): map<int, Pointer> {
    Live(w.table.data, w.table.removed)
  }

  /** Each operation acts on the live entries as on the plain map, except for the one Clear that does nothing. */
  lemma {:induction false} StepRefines(w: World, op: Op)
    requires WorldOk(w) && Enabled(w, op)
    ensures LiveOf(Step(w, op)) == PlainStep(LiveOf(w), op, w.table.nextId)
      <==> !(op.ClearOp? && ClearIsIgnored(w.table))
  {
    var t := w.table;
    match op {
      case AddOp(value, at) => AddedKeeps(t, t.nextId, value, at);
      case AddWithIdOp(value, id, at) => AddedKeeps(t, id, value, at);
      case EndOp(name) => ClosedKeeps(t);
      case RemoveOp(id) => RemovedKeeps(t, id);
      case ReplaceOp(id, value) => ReplacedLive(t, id, value);
      case ClearOp => ClearedKeeps(t);
      case _ =>
    }
  }

  // ---------------------------------------------------------------- from one step to every run

  /** From the state s, each operation in turn. */
  function RunBy<S, O>(step: (S, O) -> S, s: S, ops: seq<O>): S
    decreases |ops|
  {
    if ops == [] then s else RunBy(step, step(s, ops[0]), ops[1..])
  }

  predicate EnabledBy<S, O>(enabled: (S, O) -> bool, step: (S, O) -> S, s: S, ops: seq<O>)
    decreases |ops|
  {
    ops == [] || (enabled(s, ops[0]) && EnabledBy(enabled, step, step(s, ops[0]), ops[1..]))
  }

  /** What one step keeps and how it shows in an abstraction carries over to every run. */
  lemma {:induction false} Simulation<S(!new), O(!new), A>(
      ok: S -> bool, enabled: (S, O) -> bool, step: (S, O) -> S, view: S -> A, plain: (A, O) -> A, s: S, ops: seq<O>)
    requires forall s, op :: ok(s) && enabled(s, op) ==> ok(step(s, op)) && view(step(s, op)) == plain(view(s), op)
    requires ok(s) && EnabledBy(enabled, step, s, ops)
    ensures ok(RunBy(step, s, ops)) && view(RunBy(step, s, ops)) == RunBy(plain, view(s), ops)
    decreases |ops|
  {
    if ops != [] {
      Simulation(ok, enabled, step, view, plain, step(s, ops[0]), ops[1..]);
    }
  }

  function Next(w: World, op: Op): World {
    if Enabled(w, op) then Step(w, op) else w
  }

  predicate EnabledAll(w: World, ops: seq<Op>) {
    EnabledBy(Enabled, Next, w, ops)
  }

  function Run(w: World, ops: seq<Op>): World {
    RunBy(Next, w, ops)
  }

  /** A run is its steps one after the other. */
  lemma {:induction false} RunGrows<S, O>(
      enabled: (S, O) -> bool, step: (S, O) -> S, s: S, ops: seq<O>, op: O)
    ensures EnabledBy(enabled, step, s, []) && RunBy(step, s, []) == s
    ensures EnabledBy(enabled, step, s, ops + [op])
      <==> EnabledBy(enabled, step, s, ops) && enabled(RunBy(step, s, ops), op)
    ensures RunBy(step, s, ops + [op]) == step(RunBy(step, s, ops), op)
    decreases |ops|
  {
    if ops == [] {
      assert [] + [op] == [op] && [op][1..] == [];
      assert RunBy(step, step(s, op), []) == step(s, op);
    } else {
      assert (ops + [op])[1..] == ops[1..] + [op];
      RunGrows(enabled, step, step(s, ops[0]), ops[1..], op);
    }
  }

  /** The plain map, with the next automatic id. */
  datatype Plain = Plain(m: map<int, Pointer>, nextId: int)

  function PlainNext(p: Plain, op: Op): Plain {
    Plain(PlainStep(p.m, op, p.nextId), if op.AddOp? then p.nextId + 1 else p.nextId)
  }

  function View(w: World): Plain {
    Plain(LiveOf(w), w.table.nextId)
  }

  ghost predicate OwnerOk(w: World) {
    WorldOk(w) && w.table.owning
  }

  lemma {:induction false} StepFields(w: World, op: Op)
    requires Enabled(w, op)
    ensures Step(w, op).table.owning == w.table.owning
    ensures Step(w, op).table.nextId == if op.AddOp? then w.table.nextId + 1 else w.table.nextId
  {
  }

  lemma {:induction false} OwnerStep(w: World, op: Op)
    requires OwnerOk(w) && Enabled(w, op)
    ensures OwnerOk(Next(w, op)) && View(Next(w, op)) == PlainNext(View(w), op)
  {
    StepOk(w, op);
    StepRefines(w, op);
    StepFields(w, op);
    var w' := Step(w, op);
    assert Next(w, op) == w';
  }

  /**
    Every run of an owning table refines the plain map: in what is live at any moment, in size(), and, once the last
    iterator is gone, in all that the table holds.
  */
  lemma {:induction false} RunRefines(w: World, ops: seq<Op>)
    requires OwnerOk(w) && EnabledAll(w, ops)
    ensures WorldOk(Run(w, ops)) && View(Run(w, ops)) == RunBy(PlainNext, View(w), ops)
    ensures |Run(w, ops).table.data| - |Run(w, ops).table.removed| == |RunBy(PlainNext, View(w), ops).m|
    ensures Run(w, ops).iters == map[] ==> Live(Run(w, ops).table.data, {}) == RunBy(PlainNext, View(w), ops).m
  {
    forall w, op | OwnerOk(w) && Enabled(w, op)
      ensures OwnerOk(Next(w, op)) && View(Next(w, op)) == PlainNext(View(w), op)
    {
      OwnerStep(w, op);
    }
    Simulation(OwnerOk, Enabled, Next, View, PlainNext, w, ops);
    SizeIsLive(Run(w, ops).table);
  }

  // ---------------------------------------------------------------- what an iteration visits

  function Keys(t: Table, visited: seq<nat>): (keys: seq<int>)
    requires forall i :: 0 <= i < |visited| ==> visited[i] < |t.data|
    ensures |keys| == |visited|
  {
    seq(|visited|, i requires 0 <= i < |visited| => t.data[visited[i]].id)
  }

  lemma {:induction false} LiveIsVisited(t: Table, it: Iter, id: int)
    requires IterOk(t, it) && it.at == |t.data| && id in Live(t.data, t.removed)
    ensures id in Keys(t, it.visited)
  {
    var p :| 0 <= p < |t.data| && t.data[p].id == id;
    var k :| 0 <= k < |it.visited| && it.visited[k] == p;
    assert Keys(t, it.visited)[k] == id;
  }

  /** An iteration that has come to the end has visited each key that is live then exactly once, and none twice. */
  lemma {:induction false} CompletedIteration(w: World, name: nat)
    requires WorldOk(w) && name in w.iters && w.iters[name].at == |w.table.data|
    ensures forall id :: id in LiveOf(w) ==> id in Keys(w.table, w.iters[name].visited)
    ensures forall i, j :: 0 <= i < j < |w.iters[name].visited| ==>
      Keys(w.table, w.iters[name].visited)[i] != Keys(w.table, w.iters[name].visited)[j]
  {
    forall id | id in LiveOf(w) ensures id in Keys(w.table, w.iters[name].visited) {
      LiveIsVisited(w.table, w.iters[name], id);
    }
  }

  /** Wherever an iterator arrives, the entry is live. */
  lemma {:induction false} ArrivesAtLive(w: World, op: Op)
    requires WorldOk(w) && Enabled(w, op) && (op.BeginOp? || op.CopyOp? || op.AdvanceOp?)
    ensures Step(w, op).iters[op.name].at < |w.table.data| ==>
      w.table.data[Step(w, op).iters[op.name].at].id in LiveOf(w)
  {
    var at := Step(w, op).iters[op.name].at;
    if at < |w.table.data| { assert w.table.data[at].id in Ids(w.table.data); }
  }

  // ---------------------------------------------------------------- the mutable table

  lemma {:induction false} DropOne(t: Table, at: nat)
    requires Distinct(t.data) && at < |t.data|
    ensures Dropped(t, {t.data[at].id}).data == t.data[..at] + t.data[at + 1..]
    ensures Dropped(t, {t.data[at].id}).deleted
      == if t.owning then t.deleted + multiset{t.data[at].value} else t.deleted
  {
    EraseIsWithout(t.data, at);
    var a, b := Values(t.data)[..at], Values(t.data)[at + 1..];
    assert Values(t.data) == a + [t.data[at].value] + b;
    assert Values(t.data[..at] + t.data[at + 1..]) == a + b;
    assert multiset(Values(t.data)) - multiset(a + b) == multiset{t.data[at].value};
  }

  lemma {:induction false} RemovedAt(t: Table, at: nat)
    requires Distinct(t.data) && at < |t.data|
    ensures Removed(t, t.data[at].id)
      == if t.depth > 0 then t.(removed := t.removed + {t.data[at].id})
         else t.(data := t.data[..at] + t.data[at + 1..],
                 deleted := if t.owning then t.deleted + multiset{t.data[at].value} else t.deleted)
  {
    assert t.data[at].id in Ids(t.data);
    DropOne(t, at);
  }

  lemma {:induction false} DropTwice(t: Table, a: set<int>, b: set<int>)
    ensures Dropped(Dropped(t, a), b) == Dropped(t, a + b)
  {
    WithoutTwice(t.data, a, b);
    WithoutValues(t.data, a);
    WithoutValues(Without(t.data, a), b);
    Differences(multiset(Values(t.data)), multiset(Values(Without(t.data, a))),
                multiset(Values(Without(t.data, a + b))));
  }

  lemma {:induction false} Differences(x: multiset<Pointer>, y: multiset<Pointer>, z: multiset<Pointer>)
    requires z <= y <= x
    ensures (x - y) + (y - z) == x - z
  {
  }

  /** Dropping entries one by one, when no iteration is under way. */
  lemma {:induction false} DropNext(t: Table, done: set<int>, id: int)
    requires Distinct(t.data) && t.depth == 0 && id in Ids(t.data) - done
    ensures Distinct(Dropped(t, done).data) && Removed(Dropped(t, done), id) == Dropped(t, done + {id})
  {
    WithoutIds(t.data, done);
    DropTwice(t, done, {id});
  }

  lemma {:induction false} DropNone(t: Table)
    ensures Dropped(t, {}) == t
  {
    WithoutOthers(t.data, {});
  }

  // ---------------------------------------------------------------- ids that are noted as removed

  /** Lookup answers as the map that removes at once exactly for ids that are not just noted as removed. */
  lemma {:induction false} LookupAgrees(t: Table, id: int)
    requires Sound(t)
    ensures var live := Live(t.data, t.removed);
      Get(t.data, id) == (if id in live then Some(live[id]) else None) <==> id !in t.removed
  {
    assert id in t.removed ==> id in Ids(t.data);
  }

  /** Replace takes a pointer into its care as that map does under the same condition. */
  lemma {:induction false} ReplaceAgrees(t: Table, id: int, value: Pointer)
    requires Sound(t)
    ensures Replaced(t, id, value).given
        == t.given + (if id in Live(t.data, t.removed) then multiset{value} else multiset{})
      <==> id !in t.removed
  {
    assert id in t.removed ==> id in Ids(t.data);
    assert t.given + multiset{value} != t.given + multiset{} by {
      assert (t.given + multiset{value})[value] != t.given[value];
    }
  }

  /** What an owning map was given for a removed id, it deletes when the iteration is over. */
  lemma {:induction false} ReplacedInVain(t: Table, id: int, value: Pointer)
    requires Sound(t) && t.owning && t.depth == 1 && id in t.removed
    ensures value in Closed(Replaced(t, id, value)).deleted
  {
    assert id in Ids(t.data);
    var at := Find(t.data, id).value;
    ReplacedFacts(t.data, at, Entry(id, value));
    DroppedOneByOne(Replaced(t, id, value).(depth := 0), at, t.removed);
  }

  lemma {:induction false} DroppedOneByOne(t: Table, at: nat, ids: set<int>)
    requires Distinct(t.data) && t.owning && t.depth == 0 && at < |t.data| && t.data[at].id in ids
    ensures t.data[at].value in Dropped(t, ids).deleted
  {
    var id := t.data[at].id;
    RemovedAt(t, at);
    assert t.data[at].value in Removed(t, id).deleted;
    DropTwice(t, {id}, ids);
    assert {id} + ids == ids && id in Ids(t.data);
  }

  class IdMap {
    const owning: bool
    var data: seq<Entry>
    var removedIds: set<int>
    var iterationDepth: nat
    var nextId: int
    ghost var given: multiset<Pointer>
    ghost var handedBack: multiset<Pointer>
    ghost var deleted: multiset<Pointer>

    ghost function Now(): Table
      reads this
    {
      Table(owning, data, removedIds, iterationDepth, nextId, given, handedBack, deleted)
    }

    constructor (owning: bool)
      ensures Now() == Table(owning, [], {}, 0, 1, multiset{}, multiset{}, multiset{})
      ensures Sound(Now()) && Balanced(Now())
    {
      this.owning, data, removedIds, iterationDepth, nextId := owning, [], {}, 0, 1;
      given, handedBack, deleted := multiset{}, multiset{}, multiset{};
      new;
      assert Values([]) == [];
    }

    /** The place where the hash table puts the entry is not the caller's choice. */
    method Add(value: Pointer, at: nat) returns (id: int)
      requires nextId !in Ids(data) && at <= |data| && nextId < 0x7FFF_FFFF
      modifies this
      ensures id == old(nextId) && Now() == Added(old(Now()), id, value, at).(nextId := old(nextId) + 1)
    {
      id := nextId;
      data := Inserted(data, Entry(id, value), at);
      given := given + multiset{value};
      nextId := nextId + 1;
    }

    method AddWithID(value: Pointer, id: int, at: nat)
      requires id !in Ids(data) && at <= |data|
      modifies this
      ensures Now() == Added(old(Now()), id, value, at)
    {
      data := Inserted(data, Entry(id, value), at);
      given := given + multiset{value};
    }

    /** Releaser::release. */
    method Release(value: Pointer)
      modifies this`deleted
      ensures deleted == if owning then old(deleted) + multiset{value} else old(deleted)
    {
      if owning {
        deleted := deleted + multiset{value};
      }
    }

    method Remove(id: int)
      requires Distinct(data)
      modifies this`data, this`removedIds, this`deleted
      ensures Now() == Removed(old(Now()), id)
    {
      var i := Find(data, id);
      if i.None? {
        return;
      }
      RemovedAt(Now(), i.value);
      if iterationDepth == 0 {
        Release(data[i.value].value);
        data := data[..i.value] + data[i.value + 1..];
      } else {
        removedIds := removedIds + {id};
      }
    }

    method Replace(id: int, newValue: Pointer) returns (previous: Option<Pointer>)
      modifies this
      ensures Now() == Replaced(old(Now()), id, newValue)
      ensures previous == Get(old(data), id)
    {
      var i := Find(data, id);
      if i.None? {
        return None;
      }
      previous := Some(data[i.value].value);
      data := data[i.value := Entry(id, newValue)];
      given := given + multiset{newValue};
      handedBack := handedBack + multiset{previous.value};
    }

    method DeleteEach()
      modifies this`deleted
      ensures deleted == old(deleted) + multiset(Values(data))
    {
      var i := 0;
      while i < |data|
        invariant i <= |data|
        invariant deleted == old(deleted) + multiset(Values(data)[..i])
      {
        assert Values(data)[..i + 1] == Values(data)[..i] + [data[i].value];
        deleted := deleted + multiset{data[i].value};
        i := i + 1;
      }
      assert Values(data)[..i] == Values(data);
    }

    /** Releaser::release_all. */
    method ReleaseAll()
      modifies this`data, this`deleted
      ensures Now() == if owning then Dropped(old(Now()), Ids(old(data))) else old(Now())
    {
      if owning {
        WithoutAll(data, Ids(data));
        assert Values([]) == [];
        DeleteEach();
        data := [];
      }
    }

    method Clear()
      modifies this`data, this`removedIds, this`deleted
      ensures Now() == Cleared(old(Now()))
    {
      if iterationDepth == 0 {
        ReleaseAll();
      } else {
        var i := 0;
        while i < |data|
          invariant i <= |data| && data == old(data) && deleted == old(deleted)
          invariant removedIds == old(removedIds) + Ids(data[..i])
        {
          IdsOfLast(data[..i], data[i]);
          assert data[..i + 1] == data[..i] + [data[i]];
          removedIds := removedIds + {data[i].id};
          i := i + 1;
        }
        assert data[..i] == data;
      }
    }

    method Lookup(id: int) returns (value: Option<Pointer>)
      ensures value == Get(data, id)
    {
      var i := Find(data, id);
      value := if i.None? then None else Some(data[i.value].value);
    }

    method Size() returns (n: int)
      requires Sound(Now())
      ensures n == |Live(data, removedIds)|
    {
      SizeIsLive(Now());
      n := |data| - |removedIds|;
    }

    /** Removes what was removed during the iterations that are over, in any order. */
    method Compact()
      requires Distinct(data) && iterationDepth == 0 && removedIds <= Ids(data)
      modifies this`data, this`removedIds, this`deleted
      ensures Now() == Compacted(old(Now()))
    {
      ghost var t := Now();
      var rest := removedIds;
      DropNone(t);
      assert t.removed - rest == {};
      while rest != {}
        invariant rest <= t.removed && Now() == Dropped(t, t.removed - rest)
        decreases |rest|
      {
        ghost var done := t.removed - rest;
        var id :| id in rest;
        DropNext(t, done, id);
        Remove(id);
        rest := rest - {id};
        assert done + {id} == t.removed - rest;
      }
      assert t.removed - {} == t.removed;
      removedIds := {};
    }

    /** The destructor. */
    method Destroy()
      modifies this`data, this`deleted
      ensures Now() == Destroyed(old(Now()))
    {
      ReleaseAll();
    }
  }

  class Iterator {
    const map_: IdMap
    var at: nat

    ghost predicate Valid()
      reads this, map_
    {
      at <= |map_.data| && map_.iterationDepth > 0
    }

    constructor (m: IdMap)
      modifies m`iterationDepth
      ensures map_ == m && m.Now() == old(m.Now()).(depth := old(m.iterationDepth) + 1)
      ensures Valid() && at == Moved(m.Now(), [], 0).at
    {
      map_, at := m, 0;
      new;
      m.iterationDepth := m.iterationDepth + 1;
      SkipRemovedEntries();
    }

    constructor Copy(other: Iterator)
      requires other.Valid()
      modifies other.map_`iterationDepth
      ensures map_ == other.map_ && map_.Now() == old(other.map_.Now()).(depth := old(other.map_.iterationDepth) + 1)
      ensures Valid() && at == Skip(map_.data, map_.removedIds, other.at)
    {
      map_, at := other.map_, other.at;
      new;
      map_.iterationDepth := map_.iterationDepth + 1;
      SkipRemovedEntries();
    }

    method SkipRemovedEntries()
      requires at <= |map_.data|
      modifies this`at
      ensures at == Skip(map_.data, map_.removedIds, old(at))
    {
      while at < |map_.data| && map_.data[at].id in map_.removedIds
        invariant at <= |map_.data|
        invariant Skip(map_.data, map_.removedIds, at) == Skip(map_.data, map_.removedIds, old(at))
      {
        at := at + 1;
      }
    }

    /** The destructor; the last iterator to go compacts the table. */
    method Close()
      requires Valid() && Sound(map_.Now())
      modifies map_
      ensures map_.Now() == Closed(old(map_.Now()))
    {
      map_.iterationDepth := map_.iterationDepth - 1;
      if map_.iterationDepth == 0 {
        map_.Compact();
      }
    }

    method IsAtEnd() returns (r: bool)
      requires Valid()
      ensures r <==> at == |map_.data|
    {
      r := at == |map_.data|;
    }

    method GetCurrent() returns (key: int, value: Pointer)
      requires Valid() && at < |map_.data|
      ensures Entry(key, value) == map_.data[at]
    {
      key, value := map_.data[at].id, map_.data[at].value;
    }

    method Advance()
      requires Valid() && at < |map_.data|
      modifies this`at
      ensures Valid() && at == Moved(map_.Now(), [], old(at) + 1).at
    {
      at := at + 1;
      SkipRemovedEntries();
    }
  }

  /** In the loop below: everything before the iterator is removed, the keys it met are those it removed itself. */
  ghost predicate Swept(t: Table, start: Table, keys: seq<int>, at: nat) {
    && Sound(t) && Balanced(t) && t.data == start.data && t.depth == start.depth + 1 && t.owning == start.owning
    && at <= |t.data| && (at < |t.data| ==> t.data[at].id !in t.removed)
    && (forall i :: 0 <= i < at ==> t.data[i].id in t.removed)
    && (forall id :: id in t.removed <==> id in keys || id in start.removed)
    && (forall id :: id in keys ==> id in Ids(t.data) && id !in start.removed)
    && (forall i, j :: 0 <= i < j < |keys| ==> keys[i] != keys[j])
  }

  lemma {:induction false} SweptFurther(t: Table, start: Table, keys: seq<int>, at: nat)
    requires Swept(t, start, keys, at) && at < |t.data|
    ensures Swept(Removed(t, t.data[at].id), start, keys + [t.data[at].id],
                  Skip(t.data, Removed(t, t.data[at].id).removed, at + 1))
  {
    RemovedKeeps(t, t.data[at].id);
    assert t.data[at].id in Ids(t.data);
  }

  lemma {:induction false} SweptAll(t: Table, start: Table, keys: seq<int>)
    requires Swept(t, start, keys, |t.data|)
    ensures forall id :: id in keys <==> id in Live(start.data, start.removed)
    ensures Live(t.data, t.removed) == map[] && Without(t.data, t.removed) == []
  {
    WithoutIds(t.data, t.removed);
    if Without(t.data, t.removed) != [] {
      HasIds(Without(t.data, t.removed));
      assert false;
    }
  }

  lemma {:induction false} HasIds(data: seq<Entry>)
    requires data != []
    ensures Ids(data) != {}
  {
    assert data[0].id in Ids(data);
  }

  /** The body of the loop below. */
  method RemoveCurrent(iter: Iterator, ghost start: Table, keys: seq<int>) returns (all: seq<int>)
    requires iter.Valid() && Swept(iter.map_.Now(), start, keys, iter.at) && iter.at < |iter.map_.data|
    modifies iter`at, iter.map_
    ensures iter.Valid() && Swept(iter.map_.Now(), start, all, iter.at) && old(iter.at) < iter.at
  {
    SweptFurther(iter.map_.Now(), start, keys, iter.at);
    var key, _ := iter.GetCurrent();
    iter.map_.Remove(key);
    iter.Advance();
    all := keys + [key];
  }

  /**
    The loop that the iterator is for: it removes each entry while it stands on it. It meets every live entry once,
    and an owning map has then deleted all of them, at once or when the last iteration around this one is over.
  */
  method RemoveEach(m: IdMap) returns (keys: seq<int>)
    requires Sound(m.Now()) && Balanced(m.Now())
    modifies m
    ensures forall i, j :: 0 <= i < j < |keys| ==> keys[i] != keys[j]
    ensures forall id :: id in keys <==> id in old(Live(m.data, m.removedIds))
    ensures Live(m.data, m.removedIds) == map[]
    ensures Sound(m.Now()) && Balanced(m.Now()) && m.iterationDepth == old(m.iterationDepth)
    ensures m.iterationDepth == 0 ==> m.data == []
    ensures m.iterationDepth == 0 && m.owning ==> m.given == m.handedBack + m.deleted
  {
    ghost var start := m.Now();
    keys := [];
    var iter := new Iterator(m);
    var atEnd := iter.IsAtEnd();
    while !atEnd
      invariant iter.map_ == m && iter.Valid() && Swept(m.Now(), start, keys, iter.at)
      invariant atEnd <==> iter.at == |m.data|
      decreases |m.data| - iter.at, !atEnd
    {
      keys := RemoveCurrent(iter, start, keys);
      atEnd := iter.IsAtEnd();
    }
    SweptAll(m.Now(), start, keys);
    ClosedKeeps(m.Now());
    iter.Close();
    if m.data == [] { NothingLeft(m.Now()); }
  }

  lemma {:induction false} NothingLeft(t: Table)
    requires Balanced(t) && t.data == []
    ensures t.owning ==> t.given == t.handedBack + t.deleted
  {
    assert Values([]) == [];
  }
}
