/**
 The memory-object cache of an execution state: a fixed-capacity,
 direct-mapped table from a 64-bit host address to the (memory object,
 snapshot) pair that currently backs it.  Slot `address % Size`, no chaining.

 The cache contents are first described as a value (a sequence of entries),
 with the three operations `lookup`, `update` and `invalidate` as functions
 on it and their abstract meaning as a finite map (`View`).  The class
 `MemObjectCache` then keeps the entries in an array and updates them in
 place, each method proved against those functions.
 */
module ObjectCache {
  import opened Wrappers

  /** uint64_t */
  const MaxAddress: int := 0xFFFF_FFFF_FFFF_FFFF
  type Address = a: int | 0 <= a <= MaxAddress

  /** The address an empty entry holds, `(uintptr_t)-1` on a 64-bit host. */
  const Sentinel: Address := MaxAddress

  /** The capacity the execution state instantiates the cache with. */
  const DefaultSize: nat := 101

  /** A memory object of the symbolic engine, known here by its identity and base address. */
  datatype MemoryObject = MemoryObject(id: nat, address: Address)

  /** A snapshot (object state) of one memory object; `owner` is what `getObject()` returns. */
  datatype ObjectState = ObjectState(owner: MemoryObject, version: nat)

  /** A pair of nullable pointers: the object and its snapshot. */
  datatype ObjectPair = ObjectPair(first: Option<MemoryObject>, second: Option<ObjectState>)

  const NullPair := ObjectPair(None, None)

  /** Both pointers are set and the snapshot belongs to the object. */
  predicate Consistent(p: ObjectPair) {
    p.first.Some? && p.second.Some? && p.second.value.owner == p.first.value
  }

  datatype CacheEntry = CacheEntry(address: Address, objPair: ObjectPair)

  /** What the default constructor of an entry stores. */
  const EmptyEntry := CacheEntry(Sentinel, NullPair)

  /** The slot of an address in a table of `size` entries. */
  function Hash(address: Address, size: nat): (h: nat)
    requires size > 0
    ensures h < size
    ensures address < size ==> h == address
  {
    address % size
  }

  /** Every entry is empty, or holds a consistent pair in the slot its address hashes to. */
  predicate WellFormed(s: seq<CacheEntry>) {
    && |s| > 0
    && forall i :: 0 <= i < |s| ==>
         s[i] == EmptyEntry || (Consistent(s[i].objPair) && Hash(s[i].address, |s|) == i)
  }

  /** The table a freshly constructed cache holds. */
  function EmptyCache(size: nat): (s: seq<CacheEntry>)
  {
    seq(size, _ => EmptyEntry)
  }

  /** `lookup`: the stored pair when the slot holds exactly `address`, the null pair otherwise. */
  function LookupIn(s: seq<CacheEntry>, address: Address): (r: ObjectPair)
    requires |s| > 0
  {
    var e := s[Hash(address, |s|)];
    if address == e.address then e.objPair else NullPair
  }

  /** The condition `lookup` asserts before returning a hit: the hit pair is consistent. */
  predicate LookupAllowed(s: seq<CacheEntry>, address: Address)
    requires |s| > 0
  {
    var e := s[Hash(address, |s|)];
    address == e.address ==> Consistent(e.objPair)
  }

  /** `update`: the slot of `address` is overwritten, whatever it held. */
  function UpdateIn(s: seq<CacheEntry>, address: Address, p: ObjectPair): (t: seq<CacheEntry>)
    requires |s| > 0
    ensures |t| == |s|
    ensures LookupIn(t, address) == p
    ensures forall b: Address :: Hash(b, |s|) == Hash(address, |s|) && b != address ==>
              LookupIn(t, b) == NullPair
    ensures forall b: Address :: Hash(b, |s|) != Hash(address, |s|) ==>
              LookupIn(t, b) == LookupIn(s, b)
    ensures forall i :: 0 <= i < |s| && i != Hash(address, |s|) ==> t[i] == s[i]
  {
    s[Hash(address, |s|) := CacheEntry(address, p)]
  }

  /** `invalidate`: the slot of `address` is reset to empty only if it holds exactly `address`. */
  function InvalidateIn(s: seq<CacheEntry>, address: Address): (t: seq<CacheEntry>)
    requires |s| > 0
    ensures |t| == |s|
    ensures LookupIn(t, address) == NullPair
    ensures forall b: Address :: b != address ==> LookupIn(t, b) == LookupIn(s, b)
    ensures forall i :: 0 <= i < |s| && i != Hash(address, |s|) ==> t[i] == s[i]
  {
    var ha := Hash(address, |s|);
    if s[ha].address == address then s[ha := EmptyEntry] else s
  }

  /** The abstract contents of the cache, read off its non-empty entries: each one
      maps the address it holds to its pair.  No two entries hold the same address,
      because each sits in the slot its address hashes to. */
  ghost function View(s: seq<CacheEntry>): map<Address, ObjectPair>
    requires WellFormed(s)
  {
    map i | 0 <= i < |s| && s[i] != EmptyEntry :: s[i].address := s[i].objPair
  }

  /** The map `m` without the addresses that share a slot with `address`. */
  ghost function Evict(m: map<Address, ObjectPair>, address: Address, size: nat): map<Address, ObjectPair>
    requires size > 0
  {
    map a | a in m && Hash(a, size) != Hash(address, size) :: m[a]
  }

  /** A freshly constructed cache is well formed, holds nothing, and every lookup
      misses; only a lookup of the sentinel address itself would fail the assert. */
  lemma FreshCacheIsEmpty(size: nat)
    requires size > 0
    ensures WellFormed(EmptyCache(size))
    ensures View(EmptyCache(size)) == map[]
    ensures forall a: Address :: LookupIn(EmptyCache(size), a) == NullPair
    ensures forall a: Address :: LookupAllowed(EmptyCache(size), a) <==> a != Sentinel
  {
    var s := EmptyCache(size);
    assert WellFormed(s);
    assert View(s).Keys == {};
  }

  /** On a well-formed table the assert in `lookup` can fail only for the sentinel address. */
  lemma LookupAllowedUnlessSentinel(s: seq<CacheEntry>, address: Address)
    requires WellFormed(s)
    requires address != Sentinel
    ensures LookupAllowed(s, address)
  {
  }

  /** Invalidating the address that occupies the sentinel's slot empties that slot, so
      a lookup of the sentinel address turns from a plain miss into a match on an
      empty entry, which the assert in `lookup` rejects; the value looked up stays
      the null pair. */
  lemma InvalidateExposesSentinel(s: seq<CacheEntry>, a: Address, p: ObjectPair)
    requires |s| > 0
    requires Hash(a, |s|) == Hash(Sentinel, |s|) && a != Sentinel
    requires Consistent(p)
    ensures LookupAllowed(UpdateIn(s, a, p), Sentinel)
    ensures !LookupAllowed(InvalidateIn(UpdateIn(s, a, p), a), Sentinel)
    ensures LookupIn(InvalidateIn(UpdateIn(s, a, p), a), Sentinel) == NullPair
  {
  }

  /** `lookup` reads the abstract map: a hit is exactly a key of the view, and its
      value is the stored pair, which is consistent. */
  lemma {:induction false} LookupMatchesView(s: seq<CacheEntry>, address: Address)
    requires WellFormed(s)
    ensures address in View(s) <==> LookupIn(s, address) != NullPair
    ensures address in View(s) ==> View(s)[address] == LookupIn(s, address)
    ensures address in View(s) ==> Consistent(View(s)[address])
  {
    var ha := Hash(address, |s|);
    if s[ha].address == address && s[ha] != EmptyEntry {
      assert address in View(s) by {
        assert 0 <= ha < |s| && s[ha] != EmptyEntry;
      }
    }
    if address in View(s) {
      var i :| 0 <= i < |s| && s[i] != EmptyEntry && s[i].address == address;
      assert i == ha;
    }
  }

  /** The view never holds two addresses of the same slot (direct mapping, no chaining). */
  lemma {:induction false} ViewIsDirectMapped(s: seq<CacheEntry>, a: Address, b: Address)
    requires WellFormed(s)
    requires a in View(s) && b in View(s)
    requires Hash(a, |s|) == Hash(b, |s|)
    ensures a == b
  {
    LookupMatchesView(s, a);
    LookupMatchesView(s, b);
  }

  /** `update` keeps the table well formed; in the view it evicts whatever shared the
      slot and maps `address` to `p`. */
  lemma {:induction false} UpdateView(s: seq<CacheEntry>, address: Address, p: ObjectPair)
    requires WellFormed(s)
    requires Consistent(p)
    ensures WellFormed(UpdateIn(s, address, p))
    ensures View(UpdateIn(s, address, p)) == Evict(View(s), address, |s|)[address := p]
  {
    var t := UpdateIn(s, address, p);
    assert WellFormed(t);
    var m := Evict(View(s), address, |s|)[address := p];
    forall b: Address
      ensures b in View(t) <==> b in m
      ensures b in View(t) ==> View(t)[b] == m[b]
    {
      LookupMatchesView(t, b);
      LookupMatchesView(s, b);
    }
    assert View(t).Keys == m.Keys;
  }

  /** `invalidate` keeps the table well formed and removes exactly `address` from the view. */
  lemma {:induction false} InvalidateView(s: seq<CacheEntry>, address: Address)
    requires WellFormed(s)
    ensures WellFormed(InvalidateIn(s, address))
    ensures View(InvalidateIn(s, address)) == View(s) - {address}
  {
    var t := InvalidateIn(s, address);
    assert WellFormed(t);
    var m := View(s) - {address};
    forall b: Address
      ensures b in View(t) <==> b in m
      ensures b in View(t) ==> View(t)[b] == m[b]
    {
      LookupMatchesView(t, b);
      LookupMatchesView(s, b);
    }
    assert View(t).Keys == m.Keys;
  }

  /** Two addresses that share a slot evict each other. */
  lemma CollisionEvicts(s: seq<CacheEntry>, a: Address, b: Address, p: ObjectPair, q: ObjectPair)
    requires |s| > 0
    requires Hash(a, |s|) == Hash(b, |s|) && a != b
    ensures LookupIn(UpdateIn(UpdateIn(s, a, p), b, q), a) == NullPair
    ensures LookupIn(UpdateIn(UpdateIn(s, a, p), b, q), b) == q
  {
  }

  /** Invalidating another address of the same slot leaves a cached pair in place. */
  lemma InvalidateIsAddressExact(s: seq<CacheEntry>, a: Address, b: Address, p: ObjectPair)
    requires |s| > 0
    requires Hash(a, |s|) == Hash(b, |s|) && a != b
    ensures InvalidateIn(UpdateIn(s, a, p), b) == UpdateIn(s, a, p)
    ensures LookupIn(InvalidateIn(UpdateIn(s, a, p), b), a) == p
  {
  }

  /** One mutating call on the cache. */
  datatype CacheOp = UpdateOp(address: Address, pair: ObjectPair) | InvalidateOp(address: Address)

  function Apply(s: seq<CacheEntry>, op: CacheOp): (t: seq<CacheEntry>)
    requires |s| > 0
    ensures |t| == |s|
  {
    match op
    case UpdateOp(a, p) => UpdateIn(s, a, p)
    case InvalidateOp(a) => InvalidateIn(s, a)
  }

  /** The table after a sequence of calls, applied in order. */
  function Run(s: seq<CacheEntry>, ops: seq<CacheOp>): (t: seq<CacheEntry>)
    requires |s| > 0
    ensures |t| == |s|
    decreases |ops|
  {
    if ops == [] then s else Run(Apply(s, ops[0]), ops[1..])
  }

  /** A call that can change what `lookup(address)` returns: an update of the same
      slot, or an invalidation of that very address. */
  predicate Disturbs(op: CacheOp, address: Address, size: nat)
    requires size > 0
  {
    match op
    case UpdateOp(b, _) => Hash(b, size) == Hash(address, size)
    case InvalidateOp(b) => b == address
  }

  /** Calls that do not disturb `address` leave its lookup unchanged. */
  lemma {:induction false} UndisturbedLookupSurvives(s: seq<CacheEntry>, ops: seq<CacheOp>, address: Address)
    requires |s| > 0
    requires forall i :: 0 <= i < |ops| ==> !Disturbs(ops[i], address, |s|)
    ensures LookupIn(Run(s, ops), address) == LookupIn(s, address)
    decreases |ops|
  {
    if ops != [] {
      var s' := Apply(s, ops[0]);
      assert LookupIn(s', address) == LookupIn(s, address);
      UndisturbedLookupSurvives(s', ops[1..], address);
    }
  }

  /** The round trip: `update(a, p)` then `lookup(a)` returns `p`, however many calls
      come between, as long as none of them disturbs `a`. */
  lemma {:induction false} UpdateThenLookup(s: seq<CacheEntry>, address: Address, p: ObjectPair, ops: seq<CacheOp>)
    requires |s| > 0
    requires forall i :: 0 <= i < |ops| ==> !Disturbs(ops[i], address, |s|)
    ensures LookupIn(Run(UpdateIn(s, address, p), ops), address) == p
  {
    UndisturbedLookupSurvives(UpdateIn(s, address, p), ops, address);
  }

  /** Calls that keep the update precondition keep the table well formed. */
  lemma {:induction false} RunPreservesWellFormed(s: seq<CacheEntry>, ops: seq<CacheOp>)
    requires WellFormed(s)
    requires forall i :: 0 <= i < |ops| && ops[i].UpdateOp? ==> Consistent(ops[i].pair)
    ensures WellFormed(Run(s, ops))
    decreases |ops|
  {
    if ops != [] {
      match ops[0] {
        case UpdateOp(a, p) => UpdateView(s, a, p);
        case InvalidateOp(a) => InvalidateView(s, a);
      }
      RunPreservesWellFormed(Apply(s, ops[0]), ops[1..]);
    }
  }

  /** The cache of one execution state, its entries updated in place. */
  class MemObjectCache {
    var entries: array<CacheEntry>

    ghost predicate Valid()
      reads this, entries
    {
      WellFormed(entries[..])
    }

    /** The abstract contents: address to (object, snapshot). */
    ghost function Contents(): map<Address, ObjectPair>
      reads this, entries
      requires Valid()
    {
      View(entries[..])
    }

    /** Every slot starts empty: sentinel address, null pair. */
    constructor (size: nat)
      requires size > 0
      ensures Valid() && fresh(entries)
      ensures entries[..] == EmptyCache(size)
      ensures Contents() == map[]
    {
      var a := new CacheEntry[size];
      var i := 0;
      while i < size
        invariant 0 <= i <= size
        invariant forall k :: 0 <= k < i ==> a[k] == EmptyEntry
      {
        a[i] := EmptyEntry;
        i := i + 1;
      }
      assert a[..] == EmptyCache(size);
      FreshCacheIsEmpty(size);
      entries := a;
    }

    /** A hit returns the pair cached for exactly this address; anything else misses. */
    function Lookup(address: Address): (r: ObjectPair)
      reads this, entries
      requires Valid()
      requires LookupAllowed(entries[..], address)
      ensures address in Contents() ==> r == Contents()[address] && Consistent(r)
      ensures address !in Contents() ==> r == NullPair
    {
      LookupMatchesView(entries[..], address);
      LookupIn(entries[..], address)
    }

    /** Overwrites the slot of `address`, evicting its previous occupant. */
    method Update(address: Address, p: ObjectPair)
      requires Valid()
      requires Consistent(p)
      modifies entries
      ensures Valid()
      ensures entries[..] == UpdateIn(old(entries[..]), address, p)
      ensures Contents() == Evict(old(Contents()), address, entries.Length)[address := p]
    {
      var ha := Hash(address, entries.Length);
      entries[ha] := CacheEntry(address, p);
      assert entries[..] == UpdateIn(old(entries[..]), address, p);
      UpdateView(old(entries[..]), address, p);
    }

    /** Empties the slot of `address` if, and only if, it holds that very address. */
    method Invalidate(address: Address)
      requires Valid()
      modifies entries
      ensures Valid()
      ensures entries[..] == InvalidateIn(old(entries[..]), address)
      ensures Contents() == old(Contents()) - {address}
    {
      var ha := Hash(address, entries.Length);
      if entries[ha].address == address {
        entries[ha] := EmptyEntry;
      }
      assert entries[..] == InvalidateIn(old(entries[..]), address);
      InvalidateView(old(entries[..]), address);
    }
  }
}
