/** The indexer: a table of entries in blocks whose free entries are chained in
    place, and the index map, a table grown on demand.  Both refine a finite map. */
module Indexer {
  import opened Wrappers

  const IDX_ENTRY_SIZE := 1024
  const IDX_ARRAY_SIZE := 64
  const IDX_MAX_INDEX := 65535

  /** An entry holds an item or, when free, the index of the next free entry. */
  datatype Entry<T> = Item(item: T) | Next(next: nat)

  predicate Distinct(s: seq<nat>) { forall i, j :: 0 <= i < j < |s| ==> s[i] != s[j] }

  /** Entry `chain[j]` is free and leads to the next entry of the chain, the last one to 0. */
  ghost predicate Linked<T>(cells: seq<Entry<T>>, chain: seq<nat>, j: nat)
    requires j < |chain|
  {
    && 0 < chain[j] < |cells|
    && cells[chain[j]] == Next(if j + 1 < |chain| then chain[j + 1] else 0)
  }

  /** The chain runs through free entries and ends at 0; index 0 is reserved. */
  ghost predicate ChainOk<T>(cells: seq<Entry<T>>, free: nat, chain: seq<nat>) {
    && free == (if chain == [] then 0 else chain[0])
    && Distinct(chain)
    && (forall j :: 0 <= j < |chain| ==> Linked(cells, chain, j))
  }

  /** Every index is either free or holds the item the map gives it. */
  ghost predicate ItemsOk<T>(cells: seq<Entry<T>>, chain: seq<nat>, items: map<int, T>) {
    && (forall i :: 0 < i < |cells| ==> (i in items <==> i !in chain))
    && (forall i :: i in items ==> 0 < i < |cells| && cells[i] == Item(items[i]))
  }

  /** A table stands for a map, with `chain` the indexes that are not in it. */
  ghost predicate StandsFor<T>(cells: seq<Entry<T>>, free: nat, chain: seq<nat>, items: map<int, T>) {
    ChainOk(cells, free, chain) && ItemsOk(cells, chain, items)
  }

  lemma HeadIsFree<T>(cells: seq<Entry<T>>, free: nat, chain: seq<nat>, items: map<int, T>)
    requires StandsFor(cells, free, chain, items) && chain != []
    ensures 0 < free < |cells| && free == chain[0] && free !in items && Linked(cells, chain, 0)
  {
    assert chain[0] in chain && Linked(cells, chain, 0);
  }

  lemma ChainPopped<T>(cells: seq<Entry<T>>, chain: seq<nat>, item: T)
    requires chain != [] && ChainOk(cells, chain[0], chain) && chain[0] < |cells|
    ensures cells[chain[0]].Next? && ChainOk(cells[chain[0] := Item(item)], cells[chain[0]].next, chain[1..])
  {
    assert Linked(cells, chain, 0);
    var cells', chain' := cells[chain[0] := Item(item)], chain[1..];
    forall j | 0 <= j < |chain'| ensures Linked(cells', chain', j) {
      assert Linked(cells, chain, j + 1) && chain[j + 1] != chain[0];
    }
  }

  /** Storing an item in the first free entry takes it off the chain. */
  lemma Popped<T>(cells: seq<Entry<T>>, free: nat, chain: seq<nat>, items: map<int, T>, item: T)
    requires StandsFor(cells, free, chain, items) && chain != []
    ensures 0 < free < |cells| && cells[free].Next?
    ensures StandsFor(cells[free := Item(item)], cells[free].next, chain[1..], items[free := item])
  {
    HeadIsFree(cells, free, chain, items);
    ChainPopped(cells, chain, item);
    assert chain == [free] + chain[1..];
    forall i: nat ensures i in chain <==> i == free || i in chain[1..] {}
    assert free !in chain[1..];
  }

  lemma ChainPushed<T>(cells: seq<Entry<T>>, free: nat, chain: seq<nat>, index: nat)
    requires ChainOk(cells, free, chain) && index !in chain && 0 < index < |cells|
    ensures ChainOk(cells[index := Next(free)], index, [index] + chain)
  {
    var cells', chain' := cells[index := Next(free)], [index] + chain;
    forall j | 0 <= j < |chain'| ensures Linked(cells', chain', j) {
      if 0 < j { assert Linked(cells, chain, j - 1) && chain[j - 1] in chain; }
    }
  }

  /** A removed item's entry becomes the head of the chain. */
  lemma Pushed<T>(cells: seq<Entry<T>>, free: nat, chain: seq<nat>, items: map<int, T>, index: nat)
    requires StandsFor(cells, free, chain, items) && index in items
    ensures 0 < index < |cells| && cells[index] == Item(items[index])
    ensures StandsFor(cells[index := Next(free)], index, [index] + chain, items - {index})
  {
    ChainPushed(cells, free, chain, index);
    forall i: nat ensures i in [index] + chain <==> i == index || i in chain {}
  }

  lemma Replaced<T>(cells: seq<Entry<T>>, free: nat, chain: seq<nat>, items: map<int, T>, index: nat, item: T)
    requires StandsFor(cells, free, chain, items) && index in items
    ensures 0 < index < |cells|
    ensures StandsFor(cells[index := Item(item)], free, chain, items[index := item])
  {
    var cells' := cells[index := Item(item)];
    forall j | 0 <= j < |chain| ensures Linked(cells', chain, j) {
      assert Linked(cells, chain, j) && chain[j] in chain;
    }
  }

  /** The indexes from `lo` up to `hi`, in order. */
  function Range(lo: nat, hi: nat): (r: seq<nat>)
    requires lo <= hi
    ensures |r| == hi - lo && (forall i :: 0 <= i < |r| ==> r[i] == lo + i)
  {
    seq(hi - lo, i requires 0 <= i => lo + i)
  }

  lemma InRange(lo: nat, hi: nat, i: nat)
    requires lo <= hi
    ensures i in Range(lo, hi) <==> lo <= i < hi
  {
    if lo <= i < hi { assert Range(lo, hi)[i - lo] == i; }
  }

  /** The first index that a new block adds to a table. */
  function FirstNew(cells: nat): nat { if cells == 0 then 1 else cells }

  /** A new block chained in order goes to the front of the chain. */
  lemma Grown<T>(cells: seq<Entry<T>>, free: nat, chain: seq<nat>, items: map<int, T>, block: seq<Entry<T>>)
    requires StandsFor(cells, free, chain, items) && 2 <= |block|
    requires forall i :: 0 <= i < |block| - 1 ==> block[i] == Next(|cells| + i + 1)
    requires block[|block| - 1] == Next(free)
    ensures var lo, hi := FirstNew(|cells|), |cells| + |block|;
            StandsFor(cells + block, lo, Range(lo, hi) + chain, items)
  {
    var lo, hi := FirstNew(|cells|), |cells| + |block|;
    var added, cells' := Range(lo, hi), cells + block;
    var chain' := added + chain;
    forall j | 0 <= j < |chain'| ensures Linked(cells', chain', j) {
      if j < |added| {
        assert cells'[lo + j] == block[lo + j - |cells|];
      } else {
        assert Linked(cells, chain, j - |added|);
      }
    }
    forall j | 0 <= j < |chain| ensures chain[j] < lo { assert Linked(cells, chain, j); }
    forall i: nat ensures i in chain' <==> lo <= i < hi || i in chain { InRange(lo, hi, i); }
  }

  /** The index that following `n` links from `free` leads to. */
  function Follow<T>(cells: seq<Entry<T>>, free: nat, n: nat): nat {
    if n == 0 then free
    else
      var i := Follow(cells, free, n - 1);
      if 0 < i < |cells| && cells[i].Next? then cells[i].next else 0
  }

  /** Following the links from the list head visits the chain in order and ends at 0. */
  lemma {:induction false} FollowVisitsChain<T>(cells: seq<Entry<T>>, free: nat, chain: seq<nat>, n: nat)
    requires ChainOk(cells, free, chain)
    ensures Follow(cells, free, n) == if n < |chain| then chain[n] else 0
  {
    if 0 < n {
      FollowVisitsChain(cells, free, chain, n - 1);
      if n - 1 < |chain| { assert Linked(cells, chain, n - 1); }
    }
  }

  /** Exactly the indexes without an item are reached from the list head. */
  lemma FreeListIsComplement<T>(cells: seq<Entry<T>>, free: nat, chain: seq<nat>, items: map<int, T>, i: nat)
    requires StandsFor(cells, free, chain, items) && 0 < i < |cells|
    ensures i !in items <==> exists n: nat :: n < |cells| && Follow(cells, free, n) == i
  {
    if i !in items {
      var n :| 0 <= n < |chain| && chain[n] == i;
      FollowVisitsChain(cells, free, chain, n);
      FreeAndUsed(cells, free, chain, items);
      assert Follow(cells, free, n) == i;
    }
    forall n: nat | Follow(cells, free, n) == i ensures i !in items {
      FollowVisitsChain(cells, free, chain, n);
      assert chain[n] in chain;
    }
  }

  function Elements(s: seq<nat>): (r: set<int>)
    ensures forall i :: i in r <==> i in s
  {
    if s == [] then {} else {s[0]} + Elements(s[1..])
  }

  lemma {:induction false} DistinctCount(s: seq<nat>)
    requires Distinct(s)
    ensures |Elements(s)| == |s|
  {
    if s != [] {
      DistinctCount(s[1..]);
      assert s[0] !in s[1..];
    }
  }

  /** The indexes of a table with `n` entries. */
  function Indexes(n: nat): (r: set<int>)
    requires 0 < n
    ensures |r| == n - 1 && forall i :: i in r <==> 0 < i < n
  {
    if n == 1 then {} else Indexes(n - 1) + {n - 1}
  }

  lemma OnChainIsFree<T>(cells: seq<Entry<T>>, free: nat, chain: seq<nat>, items: map<int, T>, i: nat)
    requires StandsFor(cells, free, chain, items) && i in chain
    ensures 0 < i < |cells| && i !in items
  {
    var j :| 0 <= j < |chain| && chain[j] == i;
    assert Linked(cells, chain, j);
  }

  lemma ChainIsComplement<T>(cells: seq<Entry<T>>, free: nat, chain: seq<nat>, items: map<int, T>)
    requires StandsFor(cells, free, chain, items) && cells != []
    ensures items.Keys <= Indexes(|cells|) && Elements(chain) == Indexes(|cells|) - items.Keys
  {
    forall i: int ensures i in Elements(chain) <==> i in Indexes(|cells|) - items.Keys {
      if i in chain { OnChainIsFree(cells, free, chain, items, i); }
    }
  }

  lemma CountRest(all: set<int>, used: set<int>)
    requires used <= all
    ensures |all - used| == |all| - |used|
  {
    assert all == used + (all - used);
  }

  /** No index is lost: those in use and those on the chain are all of them. */
  lemma FreeAndUsed<T>(cells: seq<Entry<T>>, free: nat, chain: seq<nat>, items: map<int, T>)
    requires StandsFor(cells, free, chain, items) && cells != []
    ensures |items.Keys| + |chain| == |cells| - 1
  {
    ChainIsComplement(cells, free, chain, items);
    DistinctCount(chain);
    CountRest(Indexes(|cells|), items.Keys);
  }

  /** Blocks one after the other. */
  ghost function Flatten<T>(blocks: seq<array<Entry<T>>>): (r: seq<Entry<T>>)
    requires forall k :: 0 <= k < |blocks| ==> blocks[k].Length == IDX_ENTRY_SIZE
    reads blocks
    ensures |r| == |blocks| * IDX_ENTRY_SIZE
    ensures forall i :: 0 <= i < |r| ==> r[i] == blocks[i / IDX_ENTRY_SIZE][i % IDX_ENTRY_SIZE]
  {
    seq(|blocks| * IDX_ENTRY_SIZE,
        i requires 0 <= i < |blocks| * IDX_ENTRY_SIZE && blocks[i / IDX_ENTRY_SIZE].Length == IDX_ENTRY_SIZE
          reads blocks => blocks[i / IDX_ENTRY_SIZE][i % IDX_ENTRY_SIZE])
  }

  class Indexer<T> {
    var blocks: seq<array<Entry<T>>>
    var freeList: nat
    ghost var chain: seq<nat>      // the free indexes in the order they are handed out
    ghost var items: map<int, T>   // the map that the table stands for

    ghost predicate Shaped()
      reads this`blocks
    {
      && |blocks| <= IDX_ARRAY_SIZE
      && (forall k :: 0 <= k < |blocks| ==> blocks[k].Length == IDX_ENTRY_SIZE)
      && (forall j, k :: 0 <= j < k < |blocks| ==> blocks[j] != blocks[k])
    }

    ghost function Cell(i: int): Entry<T>
      requires Shaped() && 0 <= i < |blocks| * IDX_ENTRY_SIZE
      reads this`blocks, blocks
    {
      blocks[i / IDX_ENTRY_SIZE][i % IDX_ENTRY_SIZE]
    }

    /** The whole table as one sequence. */
    ghost function Cells(): (r: seq<Entry<T>>)
      requires Shaped()
      reads this`blocks, blocks
      ensures |r| == |blocks| * IDX_ENTRY_SIZE
      ensures forall i :: 0 <= i < |r| ==> r[i] == Cell(i)
    {
      Flatten(blocks)
    }

    ghost predicate Valid()
      reads this, blocks
    {
      Shaped() && StandsFor(Cells(), freeList, chain, items)
    }

    constructor ()
      ensures Valid() && items == map[] && chain == [] && blocks == []
    {
      blocks, freeList, chain, items := [], 0, [], map[];
    }

    method Load(i: nat) returns (e: Entry<T>)
      requires Shaped() && i < |blocks| * IDX_ENTRY_SIZE
      ensures e == Cells()[i]
    {
      e := blocks[i / IDX_ENTRY_SIZE][i % IDX_ENTRY_SIZE];
    }

    /** Writing an entry changes that entry and no other. */
    method Store(i: nat, e: Entry<T>)
      requires Shaped() && i < |blocks| * IDX_ENTRY_SIZE
      modifies blocks[i / IDX_ENTRY_SIZE]
      ensures Cells() == old(Cells())[i := e]
    {
      blocks[i / IDX_ENTRY_SIZE][i % IDX_ENTRY_SIZE] := e;
      forall j | 0 <= j < |blocks| * IDX_ENTRY_SIZE ensures Cell(j) == if j == i then e else old(Cell(j)) {}
    }

    /** A block whose entries are chained one to the next, the last one to `tail`. */
    static method NewBlock(start: nat, tail: nat) returns (b: array<Entry<T>>)
      ensures fresh(b) && b.Length == IDX_ENTRY_SIZE
      ensures forall i :: 0 <= i < IDX_ENTRY_SIZE - 1 ==> b[i] == Next(start + i + 1)
      ensures b[IDX_ENTRY_SIZE - 1] == Next(tail)
    {
      b := new Entry<T>[IDX_ENTRY_SIZE](_ => Next(0));
      b[IDX_ENTRY_SIZE - 1] := Next(tail);
      for i := IDX_ENTRY_SIZE - 1 downto 0
        invariant b[IDX_ENTRY_SIZE - 1] == Next(tail)
        invariant forall j :: i <= j < IDX_ENTRY_SIZE - 1 ==> b[j] == Next(start + j + 1)
      {
        b[i] := Next(start + i + 1);
      }
    }

    /** A block appended to the table follows its cells. */
    method Append(b: array<Entry<T>>)
      requires Shaped() && |blocks| < IDX_ARRAY_SIZE && b !in blocks && b.Length == IDX_ENTRY_SIZE
      modifies this`blocks
      ensures Shaped() && blocks == old(blocks) + [b] && Cells() == old(Cells()) + b[..]
    {
      ghost var n := |blocks| * IDX_ENTRY_SIZE;
      blocks := blocks + [b];
      forall i | 0 <= i < n + IDX_ENTRY_SIZE ensures Cell(i) == if i < n then old(Cell(i)) else b[i - n] {}
    }

    /** Add a block: its entries go to the front of the chain. */
    method Grow(alloc: bool) returns (r: int)
      requires Valid()
      modifies this`blocks, this`freeList, this`chain
      ensures Valid()
      ensures if old(|blocks|) >= IDX_ARRAY_SIZE || !alloc
              then r == -1 && blocks == old(blocks) && chain == old(chain) && freeList == old(freeList)
              else && r == FirstNew(old(|blocks|) * IDX_ENTRY_SIZE) && |blocks| == old(|blocks|) + 1
                   && blocks[..old(|blocks|)] == old(blocks) && fresh(blocks[old(|blocks|)])
                   && chain == Range(r, |blocks| * IDX_ENTRY_SIZE) + old(chain)
    {
      if |blocks| >= IDX_ARRAY_SIZE || !alloc { return -1; }
      var start := |blocks| * IDX_ENTRY_SIZE;
      var b := NewBlock(start, freeList);
      Grown(Cells(), freeList, chain, items, b[..]);
      Append(b);
      freeList := if start == 0 then 1 else start;
      chain := Range(freeList, start + IDX_ENTRY_SIZE) + chain;
      r := freeList;
    }

    /** Put an item in the first free entry. */
    method Take(item: T) returns (index: nat)
      requires Valid() && chain != []
      modifies this`freeList, this`chain, this`items, blocks
      ensures Valid() && index == old(chain[0]) && chain == old(chain)[1..]
      ensures index !in old(items) && 0 < index < |blocks| * IDX_ENTRY_SIZE && items == old(items)[index := item]
    {
      HeadIsFree(Cells(), freeList, chain, items);
      Popped(Cells(), freeList, chain, items, item);
      index := freeList;
      var e := Load(index);
      freeList := e.next;
      Store(index, Item(item));
      items, chain := items[index := item], chain[1..];
    }

    /** Store an item under a free index. */
    method Insert(item: T, alloc: bool) returns (index: int)
      requires Valid()
      modifies this, blocks
      ensures Valid()
      ensures index == -1 || 0 < index <= IDX_MAX_INDEX
      ensures index == -1 <==> old(chain) == [] && (old(|blocks|) == IDX_ARRAY_SIZE || !alloc)
      ensures index == -1 ==> items == old(items) && (alloc ==> |items.Keys| == IDX_MAX_INDEX)
      ensures index != -1 ==> index !in old(items) && items == old(items)[index := item]
      ensures old(chain) != [] ==> index == old(chain)[0] && chain == old(chain)[1..]
    {
      if chain != [] { HeadIsFree(Cells(), freeList, chain, items); }
      if freeList == 0 {
        var first := Grow(alloc);
        if first <= 0 {
          if alloc { FreeAndUsed(Cells(), freeList, chain, items); }
          return first;
        }
      }
      index := Take(item);
    }

    /** Take an item out; its index is the next to be handed out. */
    method Remove(index: nat) returns (item: T)
      requires Valid() && index in items
      modifies this`freeList, this`chain, this`items, blocks
      ensures Valid() && item == old(items[index])
      ensures items == old(items) - {index} && chain == [index] + old(chain)
    {
      Pushed(Cells(), freeList, chain, items, index);
      var e := Load(index);
      item := e.item;
      Store(index, Next(freeList));
      freeList := index;
      items, chain := items - {index}, [index] + chain;
    }

    method Replace(index: nat, item: T)
      requires Valid() && index in items
      modifies this`items, blocks
      ensures Valid() && items == old(items)[index := item]
    {
      Replaced(Cells(), freeList, chain, items, index, item);
      Store(index, Item(item));
      items := items[index := item];
    }

    method At(index: nat) returns (item: T)
      requires Valid() && index in items
      ensures item == items[index]
    {
      var e := Load(index);
      item := e.item;
    }
  }

  /** The map a lazily grown table stands for: the slots that hold an item. */
  function Stored<T>(slots: seq<Option<T>>): map<int, T> {
    map i | 0 <= i < |slots| && slots[i].Some? :: slots[i].value
  }

  function Updated<T>(m: map<int, T>, index: int, item: Option<T>): map<int, T> {
    if item.Some? then m[index := item.value] else m - {index}
  }

  lemma StoredUpdate<T>(slots: seq<Option<T>>, index: nat, item: Option<T>)
    requires index < |slots|
    ensures Stored(slots[index := item]) == Updated(Stored(slots), index, item)
  {
  }

  class IndexMap<T> {
    var blocks: seq<array?<Option<T>>>

    ghost predicate Valid()
      reads this
    {
      && |blocks| == IDX_ARRAY_SIZE
      && (forall k :: 0 <= k < |blocks| && blocks[k] != null ==> blocks[k].Length == IDX_ENTRY_SIZE)
      && (forall j, k :: 0 <= j < k < |blocks| && blocks[j] != null ==> blocks[j] != blocks[k])
    }

    ghost function Slots(): (r: seq<Option<T>>)
      requires Valid()
      reads this, blocks
      ensures |r| == IDX_MAX_INDEX + 1
      ensures forall i :: 0 <= i < |r| ==>
                r[i] == var b := blocks[i / IDX_ENTRY_SIZE]; if b == null then None else b[i % IDX_ENTRY_SIZE]
    {
      seq(IDX_MAX_INDEX + 1, i requires 0 <= i <= IDX_MAX_INDEX && Valid() reads this, blocks =>
        var b := blocks[i / IDX_ENTRY_SIZE]; if b == null then None else b[i % IDX_ENTRY_SIZE])
    }

    ghost function Contents(): map<int, T>
      requires Valid()
      reads this, blocks
    {
      Stored(Slots())
    }

    constructor ()
      ensures Valid() && Contents() == map[]
    {
      blocks := seq(IDX_ARRAY_SIZE, _ => null);
    }

    /** An empty block changes no slot. */
    method GrowAt(index: nat, alloc: bool) returns (r: int)
      requires Valid() && index <= IDX_MAX_INDEX && blocks[index / IDX_ENTRY_SIZE] == null
      modifies this
      ensures Valid() && Slots() == old(Slots()) && r == (if alloc then index else -1)
      ensures alloc ==> fresh(blocks[index / IDX_ENTRY_SIZE])
      ensures forall k :: 0 <= k < |blocks| && k != index / IDX_ENTRY_SIZE ==> blocks[k] == old(blocks)[k]
    {
      if !alloc { return -1; }
      var b := new Option<T>[IDX_ENTRY_SIZE](_ => None);
      blocks := blocks[index / IDX_ENTRY_SIZE := b];
      r := index;
    }

    /** Writing a slot changes that slot and no other. */
    method Write(index: nat, item: Option<T>)
      requires Valid() && index <= IDX_MAX_INDEX && blocks[index / IDX_ENTRY_SIZE] != null
      modifies blocks[index / IDX_ENTRY_SIZE]
      ensures Slots() == old(Slots())[index := item]
    {
      blocks[index / IDX_ENTRY_SIZE][index % IDX_ENTRY_SIZE] := item;
    }

    /** Associate an item with an index. */
    method Set(index: nat, item: Option<T>, alloc: bool) returns (r: int)
      requires Valid()
      modifies this, blocks
      ensures Valid() && (r == index || r == -1)
      ensures r == -1 <==> index > IDX_MAX_INDEX || (old(blocks)[index / IDX_ENTRY_SIZE] == null && !alloc)
      ensures Contents() == if r == -1 then old(Contents()) else Updated(old(Contents()), index, item)
    {
      if index > IDX_MAX_INDEX { return -1; }
      if blocks[index / IDX_ENTRY_SIZE] == null {
        r := GrowAt(index, alloc);
        if r < 0 { return -1; }
      }
      StoredUpdate(Slots(), index, item);
      Write(index, item);
      r := index;
    }

    /** Take the item of an index whose block exists. */
    method Clear(index: nat) returns (item: Option<T>)
      requires Valid() && index <= IDX_MAX_INDEX && blocks[index / IDX_ENTRY_SIZE] != null
      modifies blocks
      ensures Valid() && Contents() == old(Contents()) - {index}
      ensures item == if index in old(Contents()) then Some(old(Contents()[index])) else None
    {
      StoredUpdate(Slots(), index, None);
      item := blocks[index / IDX_ENTRY_SIZE][index % IDX_ENTRY_SIZE];
      Write(index, None);
    }

    /** The item of any index, in range or not. */
    method Lookup(index: nat) returns (item: Option<T>)
      requires Valid()
      ensures item == if index in Contents() then Some(Contents()[index]) else None
    {
      if index <= IDX_MAX_INDEX && blocks[index / IDX_ENTRY_SIZE] != null {
        item := blocks[index / IDX_ENTRY_SIZE][index % IDX_ENTRY_SIZE];
      } else {
        item := None;
      }
    }
  }
}
