/** The least-recently-used cache, against a recency list, and how its hits depend on its capacity. */
module LruCache {
  import opened Common

  /** The cache as a value: keys by recency (most recent first), their values, and the counters. */
  datatype Cache<K, V> = Cache(keys: seq<K>, lookup: map<K, V>, capacity: int, hits: nat, misses: nat)

  function Without<K(==,!new)>(keys: seq<K>, k: K): (r: seq<K>)
    ensures forall x :: x in r <==> x in keys && x != k
    ensures k !in keys ==> r == keys
  {
    if keys == [] then []
    else
      var rest := Without(keys[1..], k);
      assert keys == [keys[0]] + keys[1..];
      if keys[0] == k then rest else [keys[0]] + rest
  }

  function Front<K>(keys: seq<K>): seq<K>
    requires keys != []
  {
    keys[..|keys| - 1]
  }

  function GetOf<K(==,!new), V>(c: Cache<K, V>, k: K): Cache<K, V> {
    if k !in c.lookup then c.(misses := c.misses + 1)
    else c.(keys := [k] + Without(c.keys, k), hits := c.hits + 1)
  }

  /** Drops the least recently used key. */
  function EvictOf<K(==), V>(c: Cache<K, V>): Cache<K, V>
    requires c.keys != []
  {
    c.(keys := Front(c.keys), lookup := c.lookup - {c.keys[|c.keys| - 1]})
  }

  function PushOf<K(==), V>(c: Cache<K, V>, k: K, v: V): Cache<K, V> {
    c.(keys := [k] + c.keys, lookup := c.lookup[k := v])
  }

  function PutOf<K(==,!new), V>(c: Cache<K, V>, k: K, v: V): Cache<K, V> {
    if k in c.lookup then c.(keys := [k] + Without(c.keys, k), lookup := c.lookup[k := v])
    else if |c.keys| == c.capacity && c.keys != [] then PushOf(EvictOf(c), k, v)
    else PushOf(c, k, v)
  }

  function FlushOf<K, V>(c: Cache<K, V>): Cache<K, V> { c.(keys := [], lookup := map[], hits := 0, misses := 0) }

  function ShrinkTo<K(==), V>(c: Cache<K, V>, size: nat): Cache<K, V>
    decreases |c.keys|
  {
    if |c.keys| <= size then c else ShrinkTo(EvictOf(c), size)
  }

  /** The size is unsigned, so against a negative capacity nothing is too large; nor does a larger capacity evict. */
  function SetCapacityOf<K(==), V>(c: Cache<K, V>, capacity: int): Cache<K, V> {
    (if 0 <= capacity < c.capacity then ShrinkTo(c, capacity) else c).(capacity := capacity)
  }

  ghost predicate CacheOk<K(!new), V>(c: Cache<K, V>) {
    Distinct(c.keys) && forall k :: k in c.keys <==> k in c.lookup
  }

  /** A new key in an empty cache of capacity 0 would evict from an empty list. */
  predicate PutDefined<K(==), V>(c: Cache<K, V>, k: K) { k in c.lookup || c.keys != [] || c.capacity != 0 }

  // ---------------------------------------------------------------- the linked implementation

  /** A list node; std::list iterators name nodes and stay valid when nodes move. */
  datatype Node<K> = Node(id: nat, key: K)

  function KeysOf<K>(nodes: seq<Node<K>>): (r: seq<K>)
    ensures |r| == |nodes| && forall i :: 0 <= i < |nodes| ==> r[i] == nodes[i].key
  {
    seq(|nodes|, i requires 0 <= i < |nodes| => nodes[i].key)
  }

  /** Every key of the list has one node, and the position map names it. */
  ghost predicate Linked<K(!new)>(nodes: seq<Node<K>>, rlookup: map<K, nat>, nextId: nat) {
    && Distinct(KeysOf(nodes))
    && (forall k :: k in rlookup <==> k in KeysOf(nodes))
    && (forall i :: 0 <= i < |nodes| ==> 
         nodes[i].key in rlookup && rlookup[nodes[i].key] == nodes[i].id && nodes[i].id < nextId)
    && (forall i, j :: 0 <= i < j < |nodes| ==> nodes[i].id != nodes[j].id)
  }

  class LRUCache<K(==,!new), V> {
    var capacity: int
    var hits: nat
    var misses: nat
    var keyList: seq<Node<K>>
    var lookup: map<K, V>
    var rlookup: map<K, nat>
    var nextId: nat

    ghost function Abs(): Cache<K, V>
      reads this
    {
      Cache(KeysOf(keyList), lookup, capacity, hits, misses)
    }

    /** List, value map and position map agree. */
    ghost predicate Valid()
      reads this
    {
      Linked(keyList, rlookup, nextId) && lookup.Keys == rlookup.Keys
    }

    constructor (capacity: int)
      ensures Valid() && Abs() == Cache([], map[], capacity, 0, 0)
    {
      this.capacity := capacity;
      hits, misses, keyList, lookup, rlookup, nextId := 0, 0, [], map[], map[], 0;
    }

    /** list::splice: the node an iterator names moves to the front. */
    method MoveToFront(key: K)
      requires Valid() && key in rlookup
      modifies this`keyList
      ensures Valid() && KeysOf(keyList) == [key] + Without(KeysOf(old(keyList)), key)
    {
      var i := FindNode(rlookup[key]);
      MoveLinked(keyList, rlookup, nextId, i, key);
      keyList := [keyList[i]] + keyList[..i] + keyList[i + 1..];
    }

    method FindNode(id: nat) returns (i: nat)
      requires exists j :: 0 <= j < |keyList| && keyList[j].id == id
      ensures i < |keyList| && keyList[i].id == id
    {
      i := 0;
      while keyList[i].id != id
        invariant i < |keyList| && exists j :: i <= j < |keyList| && keyList[j].id == id
        decreases |keyList| - i
      {
        i := i + 1;
      }
    }

    method Get(key: K) returns (value: Option<V>)
      requires Valid()
      modifies this
      ensures Valid() && Abs() == GetOf(old(Abs()), key)
      ensures value == if key in old(lookup) then Some(old(lookup)[key]) else None
    {
      hide Linked;
      if key !in lookup {
        misses := misses + 1;
        return None;
      }
      MoveToFront(key);
      hits := hits + 1;
      value := Some(lookup[key]);
    }

    /** Crashes exactly when it would evict from an empty list. */
    method Put(key: K, value: V) returns (crashed: bool)
      requires Valid()
      modifies this
      ensures Valid() && (crashed <==> !PutDefined(old(Abs()), key))
      ensures Abs() == if crashed then old(Abs()) else PutOf(old(Abs()), key, value)
    {
      hide Linked;
      crashed := false;
      if key !in lookup {
        if |keyList| == capacity {
          if keyList == [] { return true; }
          EvictLast();
        }
        PushFront(key, value);
      } else {
        MoveToFront(key);
        lookup := lookup[key := value];
      }
    }

    method PushFront(key: K, value: V)
      requires Valid() && key !in lookup
      modifies this`keyList, this`rlookup, this`nextId, this`lookup
      ensures Valid() && Abs() == PushOf(old(Abs()), key, value)
    {
      hide Linked;
      PushLinked(keyList, rlookup, nextId, key);
      keyList := [Node(nextId, key)] + keyList;
      rlookup := rlookup[key := nextId];
      nextId := nextId + 1;
      lookup := lookup[key := value];
    }

    method EvictLast()
      requires Valid() && keyList != []
      modifies this`keyList, this`lookup, this`rlookup
      ensures Valid() && Abs() == EvictOf(old(Abs()))
    {
      hide Linked;
      PopLinked(keyList, rlookup, nextId);
      var last := keyList[|keyList| - 1].key;
      keyList := keyList[..|keyList| - 1];
      lookup := lookup - {last};
      rlookup := rlookup - {last};
    }

    method SetCapacity(newCapacity: int)
      requires Valid()
      modifies this
      ensures Valid() && Abs() == SetCapacityOf(old(Abs()), newCapacity)
    {
      if newCapacity < capacity && newCapacity >= 0 {
        while |keyList| > newCapacity
          invariant Valid() && capacity == old(capacity)
          invariant ShrinkTo(Abs(), newCapacity) == ShrinkTo(old(Abs()), newCapacity)
          decreases |keyList|
        {
          EvictLast();
        }
      }
      capacity := newCapacity;
    }

    method Flush()
      requires Valid()
      modifies this
      ensures Valid() && Abs() == FlushOf(old(Abs()))
    {
      lookup, keyList, rlookup, hits, misses := map[], [], map[], 0, 0;
    }
  }

  lemma {:induction false} WithoutAt<K(!new)>(keys: seq<K>, i: nat)
    requires i < |keys| && Distinct(keys)
    ensures Without(keys, keys[i]) == keys[..i] + keys[i + 1..]
    decreases |keys|
  {
    if i > 0 {
      assert keys[1..][i - 1] == keys[i];
      WithoutAt(keys[1..], i - 1);
      assert keys[..i] + keys[i + 1..] == [keys[0]] + (keys[1..][..i - 1] + keys[1..][i..]);
    } else {
      assert keys[0] !in keys[1..];
    }
  }

  lemma MoveLinked<K(!new)>(nodes: seq<Node<K>>, rlookup: map<K, nat>, nextId: nat, i: nat, key: K)
    requires Linked(nodes, rlookup, nextId) && i < |nodes| && key in rlookup && nodes[i].id == rlookup[key]
    ensures var moved := [nodes[i]] + nodes[..i] + nodes[i + 1..];
            Linked(moved, rlookup, nextId) && KeysOf(moved) == [key] + Without(KeysOf(nodes), key)
  {
    NodeOfKey(nodes, rlookup, nextId, i, key);
    MovedKeys(nodes, i);
    MovedNodes(nodes, i);
    MovedLinked(nodes, [nodes[i]] + nodes[..i] + nodes[i + 1..], rlookup, nextId);
  }

  lemma NodeOfKey<K(!new)>(nodes: seq<Node<K>>, rlookup: map<K, nat>, nextId: nat, i: nat, key: K)
    requires Linked(nodes, rlookup, nextId) && i < |nodes| && key in rlookup && nodes[i].id == rlookup[key]
    ensures nodes[i].key == key
  {
    var j :| 0 <= j < |nodes| && KeysOf(nodes)[j] == key;
    assert nodes[j].id == nodes[i].id;
  }

  lemma MovedKeys<K(!new)>(nodes: seq<Node<K>>, i: nat)
    requires Distinct(KeysOf(nodes)) && i < |nodes|
    ensures KeysOf([nodes[i]] + nodes[..i] + nodes[i + 1..]) == [nodes[i].key] + Without(KeysOf(nodes), nodes[i].key)
  {
    var keys, moved := KeysOf(nodes), [nodes[i]] + nodes[..i] + nodes[i + 1..];
    WithoutAt(keys, i);
    assert KeysOf(moved) == [keys[i]] + (keys[..i] + keys[i + 1..]);
  }

  /** Same nodes at other places. */
  ghost predicate Rearranged<K>(a: seq<Node<K>>, b: seq<Node<K>>) {
    && |a| == |b|
    && (forall p :: 0 <= p < |b| ==> b[p] in a)
    && (forall p :: 0 <= p < |a| ==> a[p] in b)
    && (Distinct(a) ==> Distinct(b))
  }

  lemma MovedNodes<K>(nodes: seq<Node<K>>, i: nat)
    requires i < |nodes|
    ensures Rearranged(nodes, [nodes[i]] + nodes[..i] + nodes[i + 1..])
  {
    var moved := [nodes[i]] + nodes[..i] + nodes[i + 1..];
    forall p | 0 <= p < |nodes| ensures nodes[p] in moved {
      assert nodes[p] == if p == i then moved[0] else if p < i then moved[p + 1] else moved[p];
    }
    forall p | 0 <= p < |moved| ensures moved[p] == nodes[if p == 0 then i else if p <= i then p - 1 else p] {}
  }

  lemma MovedLinked<K(!new)>(nodes: seq<Node<K>>, moved: seq<Node<K>>, rlookup: map<K, nat>, nextId: nat)
    requires Linked(nodes, rlookup, nextId) && Rearranged(nodes, moved)
    ensures Linked(moved, rlookup, nextId)
  {
    assert Distinct(nodes);
    forall p | 0 <= p < |moved|
      ensures moved[p].key in rlookup && rlookup[moved[p].key] == moved[p].id && moved[p].id < nextId
    {
      assert moved[p] in nodes;
    }
    forall p, q | 0 <= p < q < |moved| ensures moved[p].key != moved[q].key && moved[p].id != moved[q].id {
      var i :| 0 <= i < |nodes| && nodes[i] == moved[p];
      var j :| 0 <= j < |nodes| && nodes[j] == moved[q];
      assert moved[p] != moved[q];
      assert KeysOf(nodes)[i] != KeysOf(nodes)[j];
    }
    forall k | k in rlookup ensures k in KeysOf(moved) {
      var i :| 0 <= i < |nodes| && KeysOf(nodes)[i] == k;
      var p :| 0 <= p < |moved| && moved[p] == nodes[i];
      assert KeysOf(moved)[p] == k;
    }
  }

  lemma PushLinked<K(!new)>(nodes: seq<Node<K>>, rlookup: map<K, nat>, nextId: nat, key: K)
    requires Linked(nodes, rlookup, nextId) && key !in rlookup
    ensures Linked([Node(nextId, key)] + nodes, rlookup[key := nextId], nextId + 1)
    ensures KeysOf([Node(nextId, key)] + nodes) == [key] + KeysOf(nodes)
  {
    var pushed := [Node(nextId, key)] + nodes;
    assert KeysOf(pushed) == [key] + KeysOf(nodes);
    forall i | 0 <= i < |nodes| ensures nodes[i].key in rlookup { assert KeysOf(nodes)[i] == nodes[i].key; }
  }

  lemma PopLinked<K(!new)>(nodes: seq<Node<K>>, rlookup: map<K, nat>, nextId: nat)
    requires Linked(nodes, rlookup, nextId) && nodes != []
    ensures var last := nodes[|nodes| - 1].key;
            Linked(nodes[..|nodes| - 1], rlookup - {last}, nextId) && last in rlookup
    ensures KeysOf(nodes[..|nodes| - 1]) == Front(KeysOf(nodes))
  {
    var keys, popped := KeysOf(nodes), nodes[..|nodes| - 1];
    assert KeysOf(popped) == Front(keys);
    assert keys == Front(keys) + [keys[|keys| - 1]];
  }


  // ---------------------------------------------------------------- whole histories

  datatype Op<K, V> = GetOp(key: K) | PutOp(key: K, value: V) | FlushOp | ResizeOp(capacity: int)

  function Step<K(==,!new), V>(c: Cache<K, V>, op: Op<K, V>): Cache<K, V> {
    match op
    case GetOp(k) => GetOf(c, k)
    case PutOp(k, v) => PutOf(c, k, v)
    case FlushOp => FlushOf(c)
    case ResizeOp(capacity) => SetCapacityOf(c, capacity)
  }

  function Run<K(==,!new), V>(capacity: int, ops: seq<Op<K, V>>): Cache<K, V> {
    if ops == [] then Cache([], map[], capacity, 0, 0)
    else Step(Run(capacity, ops[..|ops| - 1]), ops[|ops| - 1])
  }

  predicate Mentions<K(==), V>(op: Op<K, V>, k: K) { (op.GetOp? || op.PutOp?) && op.key == k }

  /** The history never puts a new key into an empty cache of capacity 0. */
  ghost predicate Defined<K(!new), V>(capacity: int, ops: seq<Op<K, V>>) {
    ops == [] ||
    var init, op := ops[..|ops| - 1], ops[|ops| - 1];
    Defined(capacity, init) && (op.PutOp? ==> PutDefined(Run(capacity, init), op.key))
  }

  /** The last operation that names k, -1 if none does. */
  function LastMention<K(==), V>(ops: seq<Op<K, V>>, k: K): int {
    if ops == [] then -1
    else if Mentions(ops[|ops| - 1], k) then |ops| - 1
    else LastMention(ops[..|ops| - 1], k)
  }

  /** The value of the last Put of k. */
  function LastPut<K(==), V>(ops: seq<Op<K, V>>, k: K): Option<V> {
    if ops == [] then None
    else if ops[|ops| - 1].PutOp? && ops[|ops| - 1].key == k then Some(ops[|ops| - 1].value)
    else LastPut(ops[..|ops| - 1], k)
  }

  ghost predicate ByRecency<K, V>(keys: seq<K>, ops: seq<Op<K, V>>) {
    forall i, j :: 0 <= i < j < |keys| ==> LastMention(ops, keys[i]) > LastMention(ops, keys[j])
  }

  ghost predicate ByLastPut<K(!new), V>(lookup: map<K, V>, ops: seq<Op<K, V>>) {
    forall k :: k in lookup ==> LastPut(ops, k) == Some(lookup[k])
  }

  lemma {:induction false} MentionBefore<K, V>(ops: seq<Op<K, V>>, k: K)
    ensures LastMention(ops, k) < |ops|
  {
    if ops != [] { MentionBefore(ops[..|ops| - 1], k); }
  }

  lemma {:induction false} WithoutOrder<K(!new), V>(keys: seq<K>, k: K, ops: seq<Op<K, V>>)
    requires ByRecency(keys, ops)
    ensures ByRecency(Without(keys, k), ops)
  {
    if keys != [] {
      var rest := Without(keys[1..], k);
      WithoutOrder(keys[1..], k, ops);
      forall j | 0 <= j < |rest| ensures LastMention(ops, keys[0]) > LastMention(ops, rest[j]) {
        assert rest[j] in keys[1..];
      }
    }
  }

  /** A key that moves or enters at the front is the most recently named one. */
  lemma FrontOrder<K(!new), V>(rest: seq<K>, k: K, ops: seq<Op<K, V>>, op: Op<K, V>)
    requires ByRecency(rest, ops) && k !in rest && Mentions(op, k)
    ensures ByRecency([k] + rest, ops + [op])
  {
    var all := ops + [op];
    assert all[..|all| - 1] == ops;
    forall j | 0 <= j < |rest| ensures LastMention(all, rest[j]) == LastMention(ops, rest[j]) < |ops| {
      MentionBefore(ops, rest[j]);
    }
    forall i, j | 0 <= i < j < |rest| + 1
      ensures LastMention(all, ([k] + rest)[i]) > LastMention(all, ([k] + rest)[j])
    {
      assert ([k] + rest)[j] == rest[j - 1];
      if i > 0 { assert ([k] + rest)[i] == rest[i - 1]; }
    }
  }

  lemma SameOrder<K(!new), V>(keys: seq<K>, ops: seq<Op<K, V>>, op: Op<K, V>)
    requires ByRecency(keys, ops) && forall k :: k in keys ==> !Mentions(op, k)
    ensures ByRecency(keys, ops + [op])
  {
    assert (ops + [op])[..|ops|] == ops;
    forall j | 0 <= j < |keys| ensures LastMention(ops + [op], keys[j]) == LastMention(ops, keys[j]) {}
  }

  ghost predicate Coherent<K(!new), V>(c: Cache<K, V>, ops: seq<Op<K, V>>) {
    CacheOk(c) && ByRecency(c.keys, ops) && ByLastPut(c.lookup, ops)
  }

  lemma GetCoherent<K(!new), V>(c: Cache<K, V>, ops: seq<Op<K, V>>, k: K)
    requires Coherent(c, ops)
    ensures Coherent(GetOf(c, k), ops + [GetOp(k)])
  {
    var op: Op<K, V> := GetOp(k);
    PutsAfter(c.lookup, ops, op);
    if k in c.lookup {
      WithoutSize(c.keys, k);
      WithoutOrder(c.keys, k, ops);
      FrontOrder(Without(c.keys, k), k, ops, op);
    } else {
      SameOrder(c.keys, ops, op);
    }
  }

  lemma PutsAfter<K(!new), V>(lookup: map<K, V>, ops: seq<Op<K, V>>, op: Op<K, V>)
    requires ByLastPut(lookup, ops)
    ensures op.PutOp? ==> ByLastPut(lookup[op.key := op.value], ops + [op])
    ensures !op.PutOp? ==> ByLastPut(lookup, ops + [op])
  {
    assert (ops + [op])[..|ops|] == ops;
  }

  lemma WithoutSize<K(!new)>(keys: seq<K>, k: K)
    requires Distinct(keys) && k in keys
    ensures |Without(keys, k)| == |keys| - 1 && Distinct([k] + Without(keys, k))
  {
    var i :| 0 <= i < |keys| && keys[i] == k;
    WithoutAt(keys, i);
  }

  lemma PutCoherent<K(!new), V>(c: Cache<K, V>, ops: seq<Op<K, V>>, k: K, v: V)
    requires Coherent(c, ops)
    ensures Coherent(PutOf(c, k, v), ops + [PutOp(k, v)])
  {
    if k in c.lookup {
      PutsAfter(c.lookup, ops, PutOp(k, v));
      WithoutSize(c.keys, k);
      WithoutOrder(c.keys, k, ops);
      FrontOrder(Without(c.keys, k), k, ops, PutOp(k, v));
    } else if |c.keys| == c.capacity && c.keys != [] {
      EvictCoherent(c, ops);
      PushCoherent(EvictOf(c), ops, k, v);
    } else {
      PushCoherent(c, ops, k, v);
    }
  }

  lemma EvictCoherent<K(!new), V>(c: Cache<K, V>, ops: seq<Op<K, V>>)
    requires Coherent(c, ops) && c.keys != []
    ensures Coherent(EvictOf(c), ops)
  {
    assert c.keys == Front(c.keys) + [c.keys[|c.keys| - 1]];
  }

  lemma PushCoherent<K(!new), V>(c: Cache<K, V>, ops: seq<Op<K, V>>, k: K, v: V)
    requires Coherent(c, ops) && k !in c.lookup
    ensures Coherent(PushOf(c, k, v), ops + [PutOp(k, v)])
  {
    PutsAfter(c.lookup, ops, PutOp(k, v));
    FrontOrder(c.keys, k, ops, PutOp(k, v));
  }

  lemma {:induction false} ShrinkCoherent<K(!new), V>(c: Cache<K, V>, ops: seq<Op<K, V>>, size: nat)
    requires Coherent(c, ops)
    ensures Coherent(ShrinkTo(c, size), ops)
    decreases |c.keys|
  {
    hide Coherent;
    if |c.keys| > size {
      EvictCoherent(c, ops);
      ShrinkCoherent(EvictOf(c), ops, size);
    }
  }

  lemma ResizeCoherent<K(!new), V>(c: Cache<K, V>, ops: seq<Op<K, V>>, capacity: int)
    requires Coherent(c, ops)
    ensures Coherent(SetCapacityOf(c, capacity), ops + [ResizeOp(capacity)])
  {
    if 0 <= capacity < c.capacity { ShrinkCoherent(c, ops, capacity); }
    var d, op: Op<K, V> := SetCapacityOf(c, capacity), ResizeOp(capacity);
    PutsAfter(d.lookup, ops, op);
    SameOrder(d.keys, ops, op);
  }

  /**
   * After any history each key is there once and with the value last put for it, and keys are
   * ordered by when an operation last named them. What a full Put evicts, the last of the
   * list, is therefore the key left alone the longest.
   */
  lemma {:induction false} Recency<K(!new), V>(capacity: int, ops: seq<Op<K, V>>)
    ensures Coherent(Run(capacity, ops), ops)
  {
    if ops != [] {
      var init, op := ops[..|ops| - 1], ops[|ops| - 1];
      Recency(capacity, init);
      assert ops == init + [op];
      match op
      case GetOp(k) => GetCoherent(Run(capacity, init), init, k);
      case PutOp(k, v) => PutCoherent(Run(capacity, init), init, k, v);
      case FlushOp =>
      case ResizeOp(n) => ResizeCoherent(Run(capacity, init), init, n);
    }
  }

  predicate Bounded<K, V>(c: Cache<K, V>) { |c.keys| <= c.capacity }

  /** Neither the first capacity nor any set later is negative. */
  predicate NeverNegative<K, V>(capacity: int, ops: seq<Op<K, V>>) {
    capacity >= 0 && forall i :: 0 <= i < |ops| && ops[i].ResizeOp? ==> ops[i].capacity >= 0
  }

  lemma BoundedStep<K(!new), V>(c: Cache<K, V>, op: Op<K, V>)
    requires CacheOk(c) && Bounded(c) && (op.PutOp? ==> PutDefined(c, op.key)) && (op.ResizeOp? ==> op.capacity >= 0)
    ensures Bounded(Step(c, op))
  {
    match op
    case GetOp(k) => if k in c.lookup { WithoutSize(c.keys, k); }
    case PutOp(k, v) => if k in c.lookup { WithoutSize(c.keys, k); }
    case FlushOp =>
    case ResizeOp(n) => ShrinkKeepsRecent(c, n);
  }

  lemma {:induction false} NonNegativeBounded<K(!new), V>(capacity: int, ops: seq<Op<K, V>>)
    requires Defined(capacity, ops) && NeverNegative(capacity, ops)
    ensures Bounded(Run(capacity, ops))
  {
    if ops != [] {
      var init, op := ops[..|ops| - 1], ops[|ops| - 1];
      assert forall i :: 0 <= i < |init| ==> init[i] == ops[i];
      NonNegativeBounded(capacity, init);
      Recency(capacity, init);
      hide Run, Step, PutDefined, Bounded;
      RunLast(capacity, ops);
      BoundedStep(Run(capacity, init), op);
    }
  }

  lemma RunLast<K(!new), V>(capacity: int, ops: seq<Op<K, V>>)
    requires ops != []
    ensures Run(capacity, ops) == Step(Run(capacity, ops[..|ops| - 1]), ops[|ops| - 1])
    ensures Defined(capacity, ops) && ops[|ops| - 1].PutOp? ==>
              PutDefined(Run(capacity, ops[..|ops| - 1]), ops[|ops| - 1].key)
  {}

  lemma {:induction false} DefinedPrefix<K(!new), V>(capacity: int, ops: seq<Op<K, V>>, n: nat)
    requires Defined(capacity, ops) && n <= |ops|
    ensures Defined(capacity, ops[..n])
    decreases |ops|
  {
    if n == |ops| {
      assert ops[..n] == ops;
    } else {
      assert ops[..|ops| - 1][..n] == ops[..n];
      DefinedPrefix(capacity, ops[..|ops| - 1], n);
    }
  }

  /** The capacity bounds the number of keys throughout a history exactly when it is never negative. */
  lemma BoundedIff<K(!new), V>(capacity: int, ops: seq<Op<K, V>>)
    requires Defined(capacity, ops)
    ensures (forall n :: 0 <= n <= |ops| ==> Bounded(Run(capacity, ops[..n]))) <==> NeverNegative(capacity, ops)
  {
    if NeverNegative(capacity, ops) {
      forall n | 0 <= n <= |ops| ensures Bounded(Run(capacity, ops[..n])) {
        DefinedPrefix(capacity, ops, n);
        NonNegativeBounded(capacity, ops[..n]);
      }
    } else if capacity < 0 {
      assert !Bounded(Run(capacity, ops[..0]));
    } else {
      var i :| 0 <= i < |ops| && ops[i].ResizeOp? && ops[i].capacity < 0;
      assert ops[..i + 1][..i] == ops[..i];
      RunLast(capacity, ops[..i + 1]);
      assert !Bounded(Run(capacity, ops[..i + 1]));
    }
  }

  lemma EvictKeys<K(!new), V>(c: Cache<K, V>)
    requires Distinct(c.keys) && c.keys != [] && forall k :: k in c.keys <==> k in c.lookup
    ensures var d := EvictOf(c); Distinct(d.keys) && (forall k :: k in d.keys <==> k in d.lookup)
    ensures forall k :: k in EvictOf(c).lookup ==> k in c.lookup && EvictOf(c).lookup[k] == c.lookup[k]
  {
    assert c.keys == Front(c.keys) + [c.keys[|c.keys| - 1]];
  }

  lemma {:induction false} ShrunkKeys<K(!new), V>(c: Cache<K, V>, size: nat)
    requires CacheOk(c)
    ensures var d := ShrinkTo(c, size);
            && d.capacity == c.capacity && d.hits == c.hits && d.misses == c.misses
            && d.keys == (if |c.keys| <= size then c.keys else c.keys[..size])
            && (forall k :: k in d.lookup <==> k in d.keys)
            && (forall k :: k in d.lookup ==> d.lookup[k] == c.lookup[k])
    decreases |c.keys|
  {
    if |c.keys| > size {
      EvictKeys(c);
      ShrunkKeys(EvictOf(c), size);
      assert Front(c.keys)[..size] == c.keys[..size];
    }
  }

  /** SetCapacity to less keeps the most recent keys, as many as fit, with their values; else it keeps all. */
  lemma ShrinkKeepsRecent<K(!new), V>(c: Cache<K, V>, capacity: int)
    requires CacheOk(c)
    ensures var d := SetCapacityOf(c, capacity);
            && d.capacity == capacity && d.hits == c.hits && d.misses == c.misses
            && d.keys == (if 0 <= capacity < c.capacity && capacity < |c.keys| then c.keys[..capacity] else c.keys)
            && (forall k :: k in d.lookup <==> k in d.keys)
            && (forall k :: k in d.lookup ==> d.lookup[k] == c.lookup[k])
  {
    if 0 <= capacity < c.capacity { ShrunkKeys(c, capacity); }
  }

  // ---------------------------------------------------------------- a larger cache

  lemma {:induction false} SubWithout<K(!new)>(a: seq<K>, b: seq<K>, k: K)
    requires Sub(a, b)
    ensures Sub(Without(a, k), Without(b, k))
  {
    if a != [] {
      if a[0] == b[0] && Sub(a[1..], b[1..]) { SubWithout(a[1..], b[1..], k); } else { SubWithout(a, b[1..], k); }
      assert b[0] != k ==> Without(b, k)[1..] == Without(b[1..], k);
      assert a[0] != k ==> Without(a, k)[1..] == Without(a[1..], k);
    }
  }

  lemma {:induction false} SubFront<K>(a: seq<K>, b: seq<K>)
    requires Sub(a, b) && a != []
    ensures Sub(Front(a), Front(b)) && Sub(Front(a), b)
  {
    if |a| > 1 {
      assert Front(a)[1..] == Front(a[1..]) && Front(b)[1..] == Front(b[1..]);
      if a[0] == b[0] && Sub(a[1..], b[1..]) {
        SubFacts(a[1..], b[1..]);
        SubFront(a[1..], b[1..]);
      } else {
        SubFacts(a, b[1..]);
        SubFront(a, b[1..]);
      }
    }
  }

  lemma SubPush<K>(a: seq<K>, b: seq<K>, k: K)
    requires Sub(a, b)
    ensures Sub([k] + a, [k] + b)
  {
    assert ([k] + a)[1..] == a && ([k] + b)[1..] == b;
  }

  /** The small cache holds part of what the large one holds, in the same order and with the same values. */
  ghost predicate Included<K(!new), V>(small: Cache<K, V>, big: Cache<K, V>) {
    && Sub(small.keys, big.keys)
    && |small.keys| == (if |big.keys| <= small.capacity then |big.keys| else small.capacity)
    && (forall k :: k in small.lookup ==> k in big.lookup && small.lookup[k] == big.lookup[k])
    && small.hits <= big.hits && small.hits + small.misses == big.hits + big.misses
  }

  ghost predicate BothOk<K(!new), V>(small: Cache<K, V>, big: Cache<K, V>) {
    CacheOk(small) && CacheOk(big) && Bounded(small) && Bounded(big) && 1 <= small.capacity <= big.capacity
  }

  lemma GetIncluded<K(!new), V>(small: Cache<K, V>, big: Cache<K, V>, k: K)
    requires BothOk(small, big) && Included(small, big)
    ensures Included(GetOf(small, k), GetOf(big, k))
  {
    if k in big.lookup {
      SubWithout(small.keys, big.keys, k);
      WithoutSize(big.keys, k);
      var rest := Without(big.keys, k);
      assert ([k] + rest)[1..] == rest;
      if k in small.lookup {
        WithoutSize(small.keys, k);
        SubPush(Without(small.keys, k), rest, k);
      }
    }
  }

  lemma PutBothIncluded<K(!new), V>(small: Cache<K, V>, big: Cache<K, V>, k: K, v: V)
    requires BothOk(small, big) && Included(small, big) && k in small.lookup
    ensures Included(PutOf(small, k, v), PutOf(big, k, v))
  {
    SubWithout(small.keys, big.keys, k);
    WithoutSize(big.keys, k);
    WithoutSize(small.keys, k);
    SubPush(Without(small.keys, k), Without(big.keys, k), k);
  }

  lemma PutLargeIncluded<K(!new), V>(small: Cache<K, V>, big: Cache<K, V>, k: K, v: V)
    requires BothOk(small, big) && Included(small, big) && k in big.lookup && k !in small.lookup
    ensures Included(PutOf(small, k, v), PutOf(big, k, v))
  {
    assert |small.keys| == small.capacity by { SubFacts(small.keys, big.keys); }
    assert Sub(small.keys, Without(big.keys, k)) by { SubWithout(small.keys, big.keys, k); }
    WithoutSize(big.keys, k);
    SubFront(small.keys, Without(big.keys, k));
    SubPush(Front(small.keys), Without(big.keys, k), k);
  }

  lemma PutMissIncluded<K(!new), V>(small: Cache<K, V>, big: Cache<K, V>, k: K, v: V)
    requires BothOk(small, big) && Included(small, big) && k !in big.lookup
    ensures Included(PutOf(small, k, v), PutOf(big, k, v))
  {
    if |small.keys| == small.capacity {
      SubFront(small.keys, big.keys);
      SubPush(Front(small.keys), big.keys, k);
      SubPush(Front(small.keys), Front(big.keys), k);
      if |big.keys| == big.capacity { EvictIncluded(small, big); }
    } else {
      SubPush(small.keys, big.keys, k);
    }
  }

  /** What the large cache evicts, the small one does not keep. */
  lemma EvictIncluded<K(!new), V>(small: Cache<K, V>, big: Cache<K, V>)
    requires BothOk(small, big) && Included(small, big) && small.keys != []
    ensures forall k :: k in EvictOf(small).lookup ==> k in EvictOf(big).lookup
  {
    SubFacts(small.keys, big.keys);
    SubFront(small.keys, big.keys);
    SubFacts(Front(small.keys), Front(big.keys));
    assert small.keys == Front(small.keys) + [small.keys[|small.keys| - 1]];
    assert big.keys == Front(big.keys) + [big.keys[|big.keys| - 1]];
  }

  /**
   * Over any history of Get, Put and Flush the smaller cache's keys are a subsequence of the
   * larger one's, as many of them as its capacity allows, with the same values; so it never has
   * more hits. A Get that misses does not load the key, which is why the smaller list need not be
   * a prefix of the larger.
   */
  lemma {:induction false} LargerCacheHitsMore<K(!new), V>(small: int, big: int, ops: seq<Op<K, V>>)
    requires 1 <= small <= big && forall i :: 0 <= i < |ops| ==> !ops[i].ResizeOp?
    ensures Included(Run(small, ops), Run(big, ops))
  {
    if ops != [] {
      var init, op := ops[..|ops| - 1], ops[|ops| - 1];
      assert forall i :: 0 <= i < |init| ==> init[i] == ops[i];
      LargerCacheHitsMore(small, big, init);
      SteadyCapacity(small, init);
      SteadyCapacity(big, init);
      match op
      case GetOp(k) => GetIncluded(Run(small, init), Run(big, init), k);
      case PutOp(k, v) =>
        if k in Run(small, init).lookup {
          PutBothIncluded(Run(small, init), Run(big, init), k, v);
        } else if k in Run(big, init).lookup {
          PutLargeIncluded(Run(small, init), Run(big, init), k, v);
        } else {
          PutMissIncluded(Run(small, init), Run(big, init), k, v);
        }
      case FlushOp =>
    }
  }

  lemma {:induction false} SteadyCapacity<K(!new), V>(capacity: int, ops: seq<Op<K, V>>)
    requires capacity >= 1 && forall i :: 0 <= i < |ops| ==> !ops[i].ResizeOp?
    ensures CacheOk(Run(capacity, ops)) && Bounded(Run(capacity, ops)) && Run(capacity, ops).capacity == capacity
  {
    Recency(capacity, ops);
    if ops != [] {
      var init, op := ops[..|ops| - 1], ops[|ops| - 1];
      assert forall i :: 0 <= i < |init| ==> init[i] == ops[i];
      SteadyCapacity(capacity, init);
      BoundedStep(Run(capacity, init), op);
    }
  }

  /** The smaller cache's list is not always a prefix of the larger's. */
  lemma NotAPrefix()
    ensures var ops: seq<Op<int, int>> := [PutOp(1, 0), PutOp(2, 0), GetOp(1)];
            Run(1, ops).keys == [2] && Run(2, ops).keys == [1, 2]
  {
    var ops: seq<Op<int, int>> := [PutOp(1, 0), PutOp(2, 0), GetOp(1)];
    assert ops[..2][..1] == [PutOp(1, 0)] && ops[..2][..1][..0] == [];
    assert Run(1, ops[..2][..1]) == Step(Run(1, []), PutOp(1, 0))
        && Run(2, ops[..2][..1]) == Step(Run(2, []), PutOp(1, 0));
    assert Run(1, ops[..2]) == Step(Run(1, ops[..2][..1]), PutOp(2, 0));
    assert Run(2, ops[..2]) == Step(Run(2, ops[..2][..1]), PutOp(2, 0));
    assert Run(2, ops[..2]).keys == [2, 1];
    assert Without([2, 1], 1) == [2];
  }

  // ---------------------------------------------------------------- what a flush forgets

  /** Put at i, and nothing flushed since. */
  ghost predicate PutSinceFlush<K, V>(ops: seq<Op<K, V>>, k: K, i: nat)
    requires i < |ops|
  {
    ops[i].PutOp? && ops[i].key == k && forall j :: i < j < |ops| ==> !ops[j].FlushOp?
  }

  lemma StepHolds<K(!new), V>(c: Cache<K, V>, op: Op<K, V>, k: K)
    requires CacheOk(c) && k in Step(c, op).lookup
    ensures !op.FlushOp? && ((op.PutOp? && op.key == k) || k in c.lookup)
  {
    if op.ResizeOp? { ShrinkKeepsRecent(c, op.capacity); }
  }

  lemma JustPut<K, V>(ops: seq<Op<K, V>>, k: K)
    requires ops != [] && ops[|ops| - 1].PutOp? && ops[|ops| - 1].key == k
    ensures PutSinceFlush(ops, k, |ops| - 1)
  {}

  lemma SinceMore<K, V>(ops: seq<Op<K, V>>, k: K, i: nat)
    requires i < |ops| - 1 && PutSinceFlush(ops[..|ops| - 1], k, i) && !ops[|ops| - 1].FlushOp?
    ensures PutSinceFlush(ops, k, i)
  {
    forall j | i < j < |ops| ensures !ops[j].FlushOp? {
      if j < |ops| - 1 { assert ops[..|ops| - 1][j] == ops[j]; }
    }
  }

  lemma RunOk<K(!new), V>(capacity: int, ops: seq<Op<K, V>>)
    ensures CacheOk(Run(capacity, ops))
  {
    Recency(capacity, ops);
  }

  /** A key is held only if it was put since the last flush. */
  lemma {:induction false} HeldWasPut<K(!new), V>(capacity: int, ops: seq<Op<K, V>>, k: K)
    requires k in Run(capacity, ops).lookup
    ensures exists i :: 0 <= i < |ops| && PutSinceFlush(ops, k, i)
  {
    assert ops != [];
    hide Run, Step, CacheOk, PutSinceFlush, Defined;
    var n := |ops| - 1;
    var init, op := ops[..n], ops[n];
    RunOk(capacity, init);
    RunLast(capacity, ops);
    StepHolds(Run(capacity, init), op, k);
    if op.PutOp? && op.key == k {
      JustPut(ops, k);
    } else {
      HeldWasPut(capacity, init, k);
      var i :| 0 <= i < n && PutSinceFlush(init, k, i);
      SinceMore(ops, k, i);
    }
  }

  /** The number of Gets since the last flush. */
  function GetsSinceFlush<K, V>(ops: seq<Op<K, V>>): nat {
    if ops == [] || ops[|ops| - 1].FlushOp? then 0
    else GetsSinceFlush(ops[..|ops| - 1]) + if ops[|ops| - 1].GetOp? then 1 else 0
  }

  /** The number of Gets since the last flush that found their key. */
  function FoundSinceFlush<K(==,!new), V>(capacity: int, ops: seq<Op<K, V>>): nat {
    if ops == [] || ops[|ops| - 1].FlushOp? then 0
    else
      var init, op := ops[..|ops| - 1], ops[|ops| - 1];
      FoundSinceFlush(capacity, init) + if op.GetOp? && op.key in Run(capacity, init).lookup then 1 else 0
  }

  /** The counters account for every Get since the last flush, those that found their key as hits. */
  lemma {:induction false} CountersAddUp<K(!new), V>(capacity: int, ops: seq<Op<K, V>>)
    ensures Run(capacity, ops).hits + Run(capacity, ops).misses == GetsSinceFlush(ops)
    ensures Run(capacity, ops).hits == FoundSinceFlush(capacity, ops)
  {
    if ops != [] {
      var init, op := ops[..|ops| - 1], ops[|ops| - 1];
      CountersAddUp(capacity, init);
      if op.ResizeOp? {
        Recency(capacity, init);
        ShrinkKeepsRecent(Run(capacity, init), op.capacity);
      }
    }
  }
}
