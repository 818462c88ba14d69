/**
  The storage of pending PostgreSQL requests (rustlib/src/export_db.rs and rustlib/src/db_helpers): per
  descriptor one list of function names and, apart from it, one deque of items per name.  Together they
  are one first-in first-out queue of (name, item) pairs.
*/
module DbQueue {
  import opened Http

  type u16 = k: nat | k < 0x1_0000

  /** EntryToPop */
  datatype Entry = Entry(funcName: string, time: nat)

  /** DbTime, DbEngine and DbFunctions: each starts as No and becomes a hash map when it is first needed. */
  datatype DbTime = NoTimes | Times(lists: map<u16, seq<Entry>>)
  datatype DbEngine<T> = NoEngine | Engine(deques: map<string, seq<T>>)
  datatype DbFunctions<T> = NoFunctions | Functions(engines: map<u16, DbEngine<T>>)

  // ---------------------------------------------------------------- one queue, stored in two parts

  type Queue<T> = seq<(string, T)>

  function Deque<T>(deques: map<string, seq<T>>, name: string): seq<T> {
    if name in deques then deques[name] else []
  }

  /** The items of one name, oldest first. */
  function Named<T>(q: Queue<T>, name: string): seq<T> {
    if q == [] then [] else (if q[0].0 == name then [q[0].1] else []) + Named(q[1..], name)
  }

  /** The two parts hold this queue: new names enter the list at its front, new items their deque at its back. */
  ghost predicate Splits<T(!new)>(list: seq<Entry>, deques: map<string, seq<T>>, q: Queue<T>) {
    && |list| == |q|
    && (forall i :: 0 <= i < |q| ==> list[i].funcName == q[|q| - 1 - i].0)
    && forall name :: Deque(deques, name) == Named(q, name)
  }

  /** The queue two parts hold, read from the oldest name. */
  function Merge<T>(list: seq<Entry>, deques: map<string, seq<T>>): Queue<T>
    decreases |list|
  {
    if list == [] then [] else
    var name := list[|list| - 1].funcName;
    var items := Deque(deques, name);
    if items == [] then [] else
    [(name, items[0])] + Merge(list[..|list| - 1], deques[name := items[1..]])
  }

  lemma NamedFirst<T>(q: Queue<T>, name: string)
    requires q != []
    ensures Named(q, name) == (if q[0].0 == name then [q[0].1] else []) + Named(q[1..], name)
  {
  }

  lemma {:induction false} NamedAppend<T>(q: Queue<T>, x: (string, T), name: string)
    ensures Named(q + [x], name) == Named(q, name) + if x.0 == name then [x.1] else []
  {
    if q == [] {
      assert [x][1..] == [] && q + [x] == [x];
    } else {
      assert (q + [x])[1..] == q[1..] + [x];
      NamedFirst(q, name);
      NamedFirst(q + [x], name);
      hide Named;
      NamedAppend(q[1..], x, name);
    }
  }

  /** The oldest name's deque has the oldest item at its front. */
  lemma Oldest<T(!new)>(list: seq<Entry>, deques: map<string, seq<T>>, q: Queue<T>)
    requires Splits(list, deques, q) && list != []
    ensures q != [] && list[|list| - 1].funcName == q[0].0 && q[0].0 in deques
    ensures deques[q[0].0] != [] && deques[q[0].0][0] == q[0].1
  {
    assert Deque(deques, q[0].0) == Named(q, q[0].0);
  }

  lemma NamesAdd<T(!new)>(list: seq<Entry>, q: Queue<T>, e: Entry, item: T)
    requires |list| == |q| && forall i :: 0 <= i < |q| ==> list[i].funcName == q[|q| - 1 - i].0
    ensures var q', list' := q + [(e.funcName, item)], [e] + list;
            forall i :: 0 <= i < |q'| ==> list'[i].funcName == q'[|q'| - 1 - i].0
  {
    var q', list' := q + [(e.funcName, item)], [e] + list;
    forall i | 0 <= i < |q'| ensures list'[i].funcName == q'[|q'| - 1 - i].0 {
      if i > 0 {
        assert list'[i] == list[i - 1];
        assert q'[|q'| - 1 - i] == q[|q| - 1 - (i - 1)];
      }
    }
  }

  lemma SplitsAdd<T(!new)>(list: seq<Entry>, deques: map<string, seq<T>>, q: Queue<T>, e: Entry, item: T)
    requires Splits(list, deques, q)
    ensures Splits([e] + list, deques[e.funcName := Deque(deques, e.funcName) + [item]], q + [(e.funcName, item)])
  {
    NamesAdd(list, q, e, item);
    var deques' := deques[e.funcName := Deque(deques, e.funcName) + [item]];
    forall name ensures Named(q + [(e.funcName, item)], name) == Deque(deques', name) {
      NamedAppend(q, (e.funcName, item), name);
      assert Deque(deques, name) == Named(q, name);
    }
    hide Named, Deque;
  }

  lemma DequeIsNamed<T(!new)>(list: seq<Entry>, deques: map<string, seq<T>>, q: Queue<T>, name: string)
    requires Splits(list, deques, q)
    ensures Deque(deques, name) == Named(q, name)
  {
  }

  lemma SameLength<T(!new)>(list: seq<Entry>, deques: map<string, seq<T>>, q: Queue<T>)
    requires Splits(list, deques, q)
    ensures |list| == |q|
  {
  }

  lemma SplitsPop<T(!new)>(list: seq<Entry>, deques: map<string, seq<T>>, q: Queue<T>)
    requires Splits(list, deques, q) && q != []
    ensures var name := q[0].0;
            Splits(list[..|list| - 1], deques[name := Deque(deques, name)[1..]], q[1..])
  {
    var first := q[0].0;
    forall name ensures Named(q[1..], name) == Deque(deques[first := Deque(deques, first)[1..]], name) {
      assert Deque(deques, name) == Named(q, name);
    }
  }

  /** The queue with another item in place of the `i`-th one of a name. */
  function Replaced<T>(q: Queue<T>, name: string, i: nat, item: T): Queue<T> {
    if q == [] then []
    else if q[0].0 != name then [q[0]] + Replaced(q[1..], name, i, item)
    else if i == 0 then [(name, item)] + q[1..]
    else [q[0]] + Replaced(q[1..], name, i - 1, item)
  }

  lemma {:induction false} ReplacedNames<T>(q: Queue<T>, name: string, i: nat, item: T)
    ensures var r := Replaced(q, name, i, item);
            |r| == |q| && forall j :: 0 <= j < |q| ==> r[j].0 == q[j].0
    decreases |q|
  {
    if q != [] {
      ReplacedNames(q[1..], name, i, item);
      if i > 0 { ReplacedNames(q[1..], name, i - 1, item); }
    }
  }

  lemma {:induction false} NamedReplaced<T>(q: Queue<T>, name: string, i: nat, item: T, other: string)
    requires i < |Named(q, name)|
    ensures Named(Replaced(q, name, i, item), other)
         == if other == name then Named(q, name)[i := item] else Named(q, other)
    decreases |q|
  {
    var r := Replaced(q, name, i, item);
    NamedFirst(q, name);
    NamedFirst(q, other);
    if q[0].0 != name {
      var after := Replaced(q[1..], name, i, item);
      assert r == [q[0]] + after && r[1..] == after;
      NamedFirst(r, other);
      NamedReplaced(q[1..], name, i, item, other);
    } else if i == 0 {
      assert r == [(name, item)] + q[1..] && r[1..] == q[1..];
      NamedFirst(r, other);
    } else {
      var after := Replaced(q[1..], name, i - 1, item);
      assert r == [q[0]] + after && r[1..] == after;
      NamedFirst(r, other);
      NamedReplaced(q[1..], name, i - 1, item, other);
    }
    hide Named, Replaced;
  }

  /** Writing to a place in a deque. */
  lemma SplitsWrite<T(!new)>(list: seq<Entry>, deques: map<string, seq<T>>, q: Queue<T>, name: string, i: nat, item: T)
    requires Splits(list, deques, q) && i < |Deque(deques, name)|
    ensures Splits(list, deques[name := Deque(deques, name)[i := item]], Replaced(q, name, i, item))
  {
    var deques' := deques[name := Deque(deques, name)[i := item]];
    assert Deque(deques, name) == Named(q, name);
    ReplacedNames(q, name, i, item);
    forall other ensures Named(Replaced(q, name, i, item), other) == Deque(deques', other) {
      assert Deque(deques, other) == Named(q, other);
      NamedReplaced(q, name, i, item, other);
    }
    hide Named, Replaced;
  }

  /** The parts determine the queue: no order is lost by keeping the items apart from the names. */
  lemma {:induction false} SplitsMerge<T(!new)>(list: seq<Entry>, deques: map<string, seq<T>>, q: Queue<T>)
    requires Splits(list, deques, q)
    ensures Merge(list, deques) == q
    decreases |q|
  {
    if q != [] {
      Oldest(list, deques, q);
      SplitsPop(list, deques, q);
      SplitsMerge(list[..|list| - 1], deques[q[0].0 := Deque(deques, q[0].0)[1..]], q[1..]);
    }
  }

  // ---------------------------------------------------------------- references into the deques

  /** `VecDeque::with_capacity(10)`: a deque with fewer items than this has room for one more where it is. */
  const CAPACITY: nat := 10

  /** A place in the deque of a name. */
  datatype Place = Place(fd: u16, name: string, index: nat)

  /**
    What `pg_get_item` returns: the address of the item in front of a deque.  `front` stands for the address;
    a deque gets another one whenever its first item leaves, or a push moves the items to a larger buffer.
  */
  datatype Reference = Reference(fd: u16, name: string, front: nat)

  /** Whether a push moves the items: it can only where the deque is full, and then the allocator decides. */
  predicate Moves<T>(q: Queue<T>, name: string, moves: bool) { moves && |Named(q, name)| >= CAPACITY }

  // ---------------------------------------------------------------- the storage

  class PgStore<T(!new)> {
    var times: DbTime
    var engine: DbFunctions<T>
    var fronts: map<(u16, string), nat>

    function FrontOf(k: u16, name: string): nat
      reads this`fronts
    {
      if (k, name) in fronts then fronts[(k, name)] else 0
    }

    ghost function ListOf(k: u16): seq<Entry>
      reads this`times
    {
      if times.Times? && k in times.lists then times.lists[k] else []
    }

    ghost function DequesOf(k: u16): map<string, seq<T>>
      reads this`engine
    {
      if engine.Functions? && k in engine.engines && engine.engines[k].Engine? then engine.engines[k].deques else map[]
    }

    /** The one queue of a descriptor. */
    ghost function Pending(k: u16): Queue<T>
      reads this`times, this`engine
    {
      Merge(ListOf(k), DequesOf(k))
    }

    ghost predicate Valid()
      reads this`times, this`engine
    {
      && (engine.Functions? ==> forall k: u16 :: k in engine.engines ==> engine.engines[k].Engine?)
      && forall k: u16 :: Splits(ListOf(k), DequesOf(k), Pending(k))
    }

    constructor ()
      ensures Valid() && forall k: u16 :: Pending(k) == []
      ensures forall k: u16, name :: FrontOf(k, name) == 0
    {
      times, engine, fronts := NoTimes, NoFunctions, map[];
    }

    /** `DbTime::get_storage` */
    method GetStorage(k: u16) returns (list: seq<Entry>)
      requires Valid()
      modifies this`times
      ensures Valid() && times.Times? && k in times.lists && list == times.lists[k] == ListOf(k)
      ensures forall j: u16 :: ListOf(j) == old(ListOf(j))
    {
      hide Splits, Merge;
      match times {
        case NoTimes => times := Times(map[k := []]);
        case Times(lists) => if k !in lists { times := Times(lists[k := []]); }
      }
      list := times.lists[k];
      Unmoved();
    }

    /** The descriptors whose parts did not move hold the queue they held. */
    twostate lemma Unmoved()
      requires old(Valid())
      ensures forall j: u16 :: ListOf(j) == old(ListOf(j)) && DequesOf(j) == old(DequesOf(j)) ==>
                Pending(j) == old(Pending(j)) && Splits(ListOf(j), DequesOf(j), Pending(j))
    {
      hide Splits, Merge;
      assert forall j: u16 :: old(Splits(ListOf(j), DequesOf(j), Pending(j)));
    }

    /** `DbCollection::get_engine`, then `DbFunctions::get_named_engine` and `DbEngine::unwrap` */
    method GetNamedEngine(k: u16) returns (deques: map<string, seq<T>>)
      requires Valid()
      modifies this`engine
      ensures Valid() && engine.Functions? && k in engine.engines && engine.engines[k] == Engine(deques)
      ensures deques == DequesOf(k) && forall j: u16 :: DequesOf(j) == old(DequesOf(j))
    {
      hide Splits, Merge;
      if engine.NoFunctions? { engine := Functions(map[k := Engine(map[])]); }
      var engines := engine.engines;
      if k !in engines { engine := Functions(engines[k := Engine(map[])]); }
      deques := engine.engines[k].deques;
      Unmoved();
    }

    /** What a change through the references into the two maps leaves behind. */
    method Put(k: u16, list: seq<Entry>, deques: map<string, seq<T>>, ghost q: Queue<T>)
      requires Valid() && Splits(list, deques, q)
      requires times.Times? && engine.Functions?
      modifies this`times, this`engine
      ensures Valid() && Pending(k) == q
      ensures forall j: u16 :: j != k ==> Pending(j) == old(Pending(j))
    {
      hide Splits, Merge;
      SplitsMerge(list, deques, q);
      times := Times(times.lists[k := list]);
      engine := Functions(engine.engines[k := Engine(deques)]);
      assert ListOf(k) == list && DequesOf(k) == deques;
      assert forall j: u16 :: j != k ==> ListOf(j) == old(ListOf(j)) && DequesOf(j) == old(DequesOf(j));
      Unmoved();
    }

    /** The first item of a deque has another address. */
    method NewFront(k: u16, name: string)
      modifies this`fronts
      ensures forall j: u16, other ::
                FrontOf(j, other) == old(FrontOf(j, other)) + if (j, other) == (k, name) then 1 else 0
    {
      fronts := fronts[(k, name) := FrontOf(k, name) + 1];
    }

    /**
      `pg_add_item`: the pair goes to the end of the descriptor's queue.  `moves` is what the allocator does if
      the deque is full.
    */
    method PgAddItem(funcName: string, k: u16, item: T, now: nat, moves: bool)
      requires Valid()
      modifies this
      ensures Valid() && Pending(k) == old(Pending(k)) + [(funcName, item)]
      ensures forall j: u16 :: j != k ==> Pending(j) == old(Pending(j))
      ensures forall j: u16, name :: FrontOf(j, name) == old(FrontOf(j, name)) +
                if j == k && name == funcName && Moves(old(Pending(k)), name, moves) then 1 else 0
    {
      hide Splits, Merge, Named, FrontOf;
      var entry := Entry(funcName, now);
      var list := GetStorage(k);
      var deques := GetNamedEngine(k);
      ghost var was := deques;
      ghost var q := Pending(k);
      SplitsAdd(list, deques, q, entry, item);
      DequeIsNamed(list, deques, q, funcName);
      if funcName !in deques { deques := deques[funcName := []]; }
      var full := |deques[funcName]| >= CAPACITY;
      deques := deques[funcName := deques[funcName] + [item]];
      assert deques == was[funcName := Deque(was, funcName) + [item]];
      Put(k, [entry] + list, deques, q + [(funcName, item)]);
      if moves && full { NewFront(k, funcName); }
    }

    /** `pg_get_item`: the oldest item and the reference to it; None is the panic on an empty queue. */
    method PgGetItem(k: u16) returns (r: Option<T>, at: Reference)
      requires Valid()
      modifies this`times, this`engine
      ensures Valid() && forall j: u16 :: Pending(j) == old(Pending(j))
      ensures r == if Pending(k) == [] then None else Some(Pending(k)[0].1)
      ensures r.Some? ==> at == Reference(k, Pending(k)[0].0, FrontOf(k, Pending(k)[0].0))
    {
      hide Splits, Merge, Named;
      r, at := None, Reference(k, "", 0);
      var list := GetStorage(k);
      SameLength(list, DequesOf(k), Pending(k));
      if list != [] {
        var deques := GetNamedEngine(k);
        Oldest(list, deques, Pending(k));
        var name := list[|list| - 1].funcName;
        if name in deques && deques[name] != [] {
          r, at := Some(deques[name][0]), Reference(k, name, FrontOf(k, name));
        }
      }
    }

    /** `pg_get_and_remove_item`: the oldest item leaves the queue, and nothing else does. */
    method PgGetAndRemoveItem(k: u16) returns (r: Option<T>)
      requires Valid()
      modifies this
      ensures Valid() && forall j: u16 :: j != k ==> Pending(j) == old(Pending(j))
      ensures old(Pending(k)) == [] ==> r == None && Pending(k) == []
      ensures old(Pending(k)) != [] ==> r == Some(old(Pending(k))[0].1) && Pending(k) == old(Pending(k))[1..]
      ensures forall j: u16, name :: FrontOf(j, name) == old(FrontOf(j, name)) +
                if old(Pending(k)) != [] && j == k && name == old(Pending(k))[0].0 then 1 else 0
    {
      hide Splits, Merge, Named, FrontOf;
      var list := GetStorage(k);
      SameLength(list, DequesOf(k), Pending(k));
      if list == [] { return None; }
      var deques := GetNamedEngine(k);
      ghost var q := Pending(k);
      Oldest(list, deques, q);
      SplitsPop(list, deques, q);
      var name := list[|list| - 1].funcName;
      if name !in deques || deques[name] == [] { return None; }
      r := Some(deques[name][0]);
      Put(k, list[..|list| - 1], deques[name := deques[name][1..]], q[1..]);
      NewFront(k, name);
    }

    /** `pg_has_item`: whether the queue is non-empty. */
    method PgHasItem(k: u16) returns (r: bool)
      requires Valid()
      modifies this`times, this`engine
      ensures Valid() && forall j: u16 :: Pending(j) == old(Pending(j))
      ensures r <==> Pending(k) != []
    {
      hide Splits, Merge, Named;
      var list := GetStorage(k);
      SameLength(list, DequesOf(k), Pending(k));
      if list == [] { return false; }
      var deques := GetNamedEngine(k);
      Oldest(list, deques, Pending(k));
      var name := list[|list| - 1].funcName;
      r := name in deques && |deques[name]| != 0;
    }

    /** `pg_get_func_name`: the name the oldest item was added under; None is the panic. */
    method PgGetFuncName(k: u16) returns (r: Option<string>)
      requires Valid()
      modifies this`times, this`engine
      ensures Valid() && forall j: u16 :: Pending(j) == old(Pending(j))
      ensures r == if Pending(k) == [] then None else Some(Pending(k)[0].0)
    {
      hide Splits, Merge, Named;
      var list := GetStorage(k);
      SameLength(list, DequesOf(k), Pending(k));
      if list == [] { return None; }
      Oldest(list, DequesOf(k), Pending(k));
      r := Some(list[|list| - 1].funcName);
    }

    /** Where a reference leads now: to its item as long as that has neither left nor moved. */
    function Leads(at: Reference, stray: Option<Place>): Option<Place>
      reads this`fronts
    {
      if FrontOf(at.fd, at.name) == at.front then Some(Place(at.fd, at.name, 0)) else stray
    }

    /**
      The item in a place, if there is one: what C reads, and will write back, through an address.
    */
    method ItemAt(p: Place) returns (r: Option<T>)
      requires Valid()
      modifies this`times, this`engine
      ensures Valid() && forall j: u16 :: Pending(j) == old(Pending(j))
      ensures var items := Named(Pending(p.fd), p.name);
              r == if p.index < |items| then Some(items[p.index]) else None
    {
      hide Splits, Merge, Named;
      var list := GetStorage(p.fd);
      var deques := GetNamedEngine(p.fd);
      DequeIsNamed(list, deques, Pending(p.fd), p.name);
      if p.name !in deques || |deques[p.name]| <= p.index { return None; }
      r := Some(deques[p.name][p.index]);
    }

    /** A write to a place changes the item there and nothing else. */
    method WriteItem(p: Place, item: T)
      requires Valid() && p.index < |Named(Pending(p.fd), p.name)|
      modifies this`times, this`engine
      ensures Valid() && forall j: u16 :: j != p.fd ==> Pending(j) == old(Pending(j))
      ensures Pending(p.fd) == Replaced(old(Pending(p.fd)), p.name, p.index, item)
    {
      hide Splits, Merge, Named;
      var list := GetStorage(p.fd);
      var deques := GetNamedEngine(p.fd);
      ghost var q := Pending(p.fd);
      DequeIsNamed(list, deques, q, p.name);
      SplitsWrite(list, deques, q, p.name, p.index, item);
      Put(p.fd, list, deques[p.name := deques[p.name][p.index := item]], Replaced(q, p.name, p.index, item));
    }
  }
}
