/**
 The insertion-ordered hash map (`runtime/src/map.rs`): a list of entries with
 an open-addressing index that exists only from `HASH_THRESHOLD` entries on.

 The map is parametric in how keys compare and hash.  All it may rely on is
 `KeyLaw`: equality is symmetric and transitive and equal keys hash alike.
 Reflexivity is not assumed, since a NaN key never equals itself.
 */
module HashMaps {
  import opened Values
  import opened Numbers

  const HASH_THRESHOLD: nat := 16
  const EMPTY: int := -1
  /** Entry numbers below this survive the index's `i32`. */
  const I32_LIMIT: nat := 0x8000_0000

  /** `n as i32`: the low 32 bits in two's complement. */
  function AsI32(n: nat): int {
    var m := n % POW32;
    if m >= I32_LIMIT then m - POW32 else m
  }

  /** `e as usize`: sign-extended to 64 bits. */
  function AsUsize(e: int): nat { e % POW64 }

  /** The casts through the index keep an entry number of a vector exactly when it is below 2^31. */
  lemma EntryNumberCast(n: nat)
    requires n < POW63
    ensures AsUsize(AsI32(n)) == n <==> n < I32_LIMIT
  {
    if n < I32_LIMIT {
      assert AsI32(n) == n;
    } else {
      var m := n % POW32;
      assert m >= I32_LIMIT ==> AsUsize(AsI32(n)) == m - POW32 + POW64;
      assert n / POW32 == 0 ==> m == n;
    }
  }

  /** How keys compare and hash; fixed while keys are stored. */
  datatype Keys<!K> = Keys(eq: (K, K) -> bool, hash: K -> u64)

  ghost predicate KeyLaw<K(!new)>(ks: Keys<K>) {
    && (forall a, b :: ks.eq(a, b) ==> ks.eq(b, a))
    && (forall a, b, c :: ks.eq(a, b) && ks.eq(b, c) ==> ks.eq(a, c))
    && (forall a, b :: ks.eq(a, b) ==> ks.hash(a) == ks.hash(b))
  }

  lemma NumberReadBack(e: int)
    requires 0 <= e < I32_LIMIT
    ensures AsUsize(e) == e && AsI32(e) == e
  {
  }

  // ----- the reference: an association list -----

  /** Position of the first entry whose key equals `key`. */
  function Scan<K, V>(ks: Keys<K>, es: seq<(K, V)>, key: K): (r: Option<nat>)
    ensures r.Some? ==> r.value < |es| && ks.eq(es[r.value].0, key)
    ensures r.Some? ==> forall i :: 0 <= i < r.value ==> !ks.eq(es[i].0, key)
    ensures r.None? ==> forall i :: 0 <= i < |es| ==> !ks.eq(es[i].0, key)
  {
    if es == [] then None
    else
      var r := Scan(ks, Init(es), key);
      if r.Some? then r else if ks.eq(Last(es).0, key) then Some(|es| - 1) else None
  }

  function Lookup<K, V>(ks: Keys<K>, es: seq<(K, V)>, key: K): Option<V> {
    var i := Scan(ks, es, key);
    if i.Some? then Some(es[i.value].1) else None
  }

  /** Update in place, or append. */
  function Put<K, V>(ks: Keys<K>, es: seq<(K, V)>, key: K, val: V): seq<(K, V)> {
    var i := Scan(ks, es, key);
    if i.Some? then es[i.value := (es[i.value].0, val)] else es + [(key, val)]
  }

  function Drop<K, V>(ks: Keys<K>, es: seq<(K, V)>, key: K): seq<(K, V)> {
    var i := Scan(ks, es, key);
    if i.Some? then es[..i.value] + es[i.value + 1..] else es
  }

  /** No two entries have equal keys. */
  ghost predicate Distinct<K, V>(ks: Keys<K>, es: seq<(K, V)>) {
    forall i, j :: 0 <= i < j < |es| ==> !ks.eq(es[i].0, es[j].0)
  }

  lemma MatchUnique<K(!new), V>(ks: Keys<K>, es: seq<(K, V)>, key: K, i: nat, j: nat)
    requires KeyLaw(ks) && Distinct(ks, es) && i < |es| && j < |es|
    requires ks.eq(es[i].0, key) && ks.eq(es[j].0, key)
    ensures i == j
  {
  }

  /** In a list with distinct keys any match is the match. */
  lemma MatchIsScan<K(!new), V>(ks: Keys<K>, es: seq<(K, V)>, key: K, i: nat)
    requires KeyLaw(ks) && Distinct(ks, es) && i < |es| && ks.eq(es[i].0, key)
    ensures Scan(ks, es, key) == Some(i)
  {
    MatchUnique(ks, es, key, i, Scan(ks, es, key).value);
  }

  lemma NoMatchIsNone<K, V>(ks: Keys<K>, es: seq<(K, V)>, key: K)
    requires forall i :: 0 <= i < |es| ==> !ks.eq(es[i].0, key)
    ensures Scan(ks, es, key) == None
  {
  }

  /** Reading after a write: the written key's class reads the value, others are untouched. */
  lemma LookupPut<K(!new), V>(ks: Keys<K>, es: seq<(K, V)>, key: K, val: V, other: K)
    requires KeyLaw(ks) && Distinct(ks, es)
    ensures Distinct(ks, Put(ks, es, key, val))
    ensures Lookup(ks, Put(ks, es, key, val), other)
         == if ks.eq(key, other) then Some(val) else Lookup(ks, es, other)
  {
    var at, r := Scan(ks, es, key), Put(ks, es, key, val);
    assert forall i :: 0 <= i < |es| && (at.None? || i != at.value) ==> r[i] == es[i];
    assert forall i :: 0 <= i < |es| ==> r[i].0 == es[i].0;
    var pos: nat := if at.Some? then at.value else |es|;
    assert r[pos].1 == val && (at.None? ==> r[pos].0 == key);
    if ks.eq(key, other) {
      assert ks.eq(r[pos].0, other);
      MatchIsScan(ks, r, other, pos);
    } else {
      var o := Scan(ks, es, other);
      if o.Some? {
        assert at.Some? ==> ks.eq(key, es[at.value].0);
        MatchIsScan(ks, r, other, o.value);
      } else {
        assert !ks.eq(r[pos].0, other);
        NoMatchIsNone(ks, r, other);
      }
    }
  }

  /** Reading after a removal. */
  lemma LookupDrop<K(!new), V>(ks: Keys<K>, es: seq<(K, V)>, key: K, other: K)
    requires KeyLaw(ks) && Distinct(ks, es)
    ensures Distinct(ks, Drop(ks, es, key))
    ensures Lookup(ks, Drop(ks, es, key), other)
         == if ks.eq(key, other) then None else Lookup(ks, es, other)
  {
    var at, r := Scan(ks, es, key), Drop(ks, es, key);
    if at.Some? {
      var p := at.value;
      assert forall i :: 0 <= i < |r| ==> r[i] == (if i < p then es[i] else es[i + 1]);
      if ks.eq(key, other) {
        assert ks.eq(es[p].0, other);
        assert forall i :: 0 <= i < |es| && ks.eq(es[i].0, other) ==> i == p;
        NoMatchIsNone(ks, r, other);
      } else {
        var o := Scan(ks, es, other);
        if o.Some? {
          assert ks.eq(key, es[p].0);
          MatchIsScan(ks, r, other, if o.value < p then o.value else o.value - 1);
        } else {
          NoMatchIsNone(ks, r, other);
        }
      }
    } else if ks.eq(key, other) {
      assert ks.eq(other, key);
      NoMatchIsNone(ks, es, other);
    }
  }

  // ----- masks and capacities -----

  /** Bitwise and, bit by bit. */
  function BitAnd(x: nat, y: nat): nat {
    if x == 0 || y == 0 then 0
    else 2 * BitAnd(x / 2, y / 2) + (if x % 2 == 1 && y % 2 == 1 then 1 else 0)
  }

  lemma AndStep(x: nat, p: nat)
    requires p >= 1
    ensures BitAnd(x, 2 * p - 1) == 2 * BitAnd(x / 2, p - 1) + x % 2
  {
    assert (2 * p - 1) / 2 == p - 1 && (2 * p - 1) % 2 == 1;
  }

  lemma MulSmall(m: int, d: int)
    requires m >= 0 && -m < m * d < m
    ensures d == 0
  {
    assert d >= 1 ==> m * d >= m;
    assert d <= -1 ==> m * d <= -m;
  }

  lemma HalfModulo(x: nat, p: nat)
    requires p >= 1
    ensures x % (2 * p) == 2 * ((x / 2) % p) + x % 2
  {
    var q, r := (x / 2) / p, 2 * ((x / 2) % p) + x % 2;
    var d := x / (2 * p) - q;
    assert x / 2 == p * q + (x / 2) % p;
    assert x == (2 * p) * q + r;
    assert x == (2 * p) * (x / (2 * p)) + x % (2 * p);
    assert (2 * p) * d == (2 * p) * (x / (2 * p)) - (2 * p) * q;
    MulSmall(2 * p, d);
  }

  lemma {:induction false} MaskIsModulo(x: nat, k: nat)
    ensures Pow2(k) >= 1 && BitAnd(x, Pow2(k) - 1) == x % Pow2(k)
  {
    hide BitAnd;
    if k == 0 {
      AndZero(x);
    } else {
      MaskIsModulo(x / 2, k - 1);
      AndStep(x, Pow2(k - 1));
      HalfModulo(x, Pow2(k - 1));
    }
  }

  lemma AndZero(x: nat)
    ensures BitAnd(x, 0) == 0
  {
  }

  /** On a power-of-two table the mask reduces a hash, and wraps the next slot to zero at the end. */
  lemma MaskFacts(x: nat, cap: nat)
    requires IsPow2(cap)
    ensures cap >= 1 && BitAnd(x, cap - 1) == x % cap < cap
    ensures x < cap ==> BitAnd(x + 1, cap - 1) == NextSlot(x, cap)
  {
    hide BitAnd, Pow2, NextSlot;
    var k: nat :| cap == Pow2(k);
    MaskIsModulo(x, k);
    MaskIsModulo(x + 1, k);
    WrapFacts(x, cap);
  }

  lemma WrapFacts(x: nat, cap: nat)
    requires cap >= 1
    ensures x < cap ==> (x + 1) % cap == NextSlot(x, cap)
  {
    if x + 1 < cap {
      assert (x + 1) % cap == x + 1;
    } else if x + 1 == cap {
      assert cap % cap == 0;
    }
  }

  function NextSlot(slot: nat, cap: nat): nat {
    if slot + 1 == cap then 0 else slot + 1
  }

  /** Smallest power of two that is at least `n`, searched upward from `p`. */
  function NextPow2(n: nat, p: nat): nat
    requires p >= 1
    decreases if p < n then n - p else 0
  {
    if p >= n then p else NextPow2(n, 2 * p)
  }

  function CapacityFor(n: nat): nat {
    NextPow2(if 2 * n >= 32 then 2 * n else 32, 1)
  }

  lemma {:induction false} NextPow2Ok(n: nat, k: nat)
    ensures Pow2(k) >= 1 && IsPow2(NextPow2(n, Pow2(k))) && NextPow2(n, Pow2(k)) >= n
    decreases if Pow2(k) < n then n - Pow2(k) else 0
  {
    Pow2Positive(k);
    if Pow2(k) >= n {
    } else {
      NextPow2Ok(n, k + 1);
    }
  }

  lemma CapacityOk(n: nat)
    ensures IsPow2(CapacityFor(n)) && CapacityFor(n) >= 32 && 4 * n < 3 * CapacityFor(n)
  {
    NextPow2Ok(if 2 * n >= 32 then 2 * n else 32, 0);
  }

  // ----- the probe table -----

  /** Slot reached from `home` after `e` steps around the table. */
  function SlotAt(home: nat, e: nat, cap: nat): int {
    if home + e < cap then home + e else home + e - cap
  }

  /**
   The first `n` entries are in the table, each exactly once, `disp[i]` steps
   past its home slot with no empty slot in between, and nothing else is.
   */
  ghost predicate TableOk(hashes: seq<u64>, index: seq<int>, disp: seq<nat>, n: nat) {
    && n < |index| && n <= |hashes| && n <= |disp|
    && (forall s :: 0 <= s < |index| ==> EMPTY <= index[s] < n)
    && (forall s, t :: 0 <= s < t < |index| && index[s] == index[t] ==> index[s] == EMPTY)
    && (forall i :: 0 <= i < n ==>
          disp[i] < |index| && index[SlotAt(hashes[i] % |index|, disp[i], |index|)] == i)
    && (forall i, e: nat :: 0 <= i < n && e < disp[i] ==> index[SlotAt(hashes[i] % |index|, e, |index|)] != EMPTY)
  }

  /** Distinct numbers below `n` are at most `n` many. */
  lemma {:induction false} DistinctBelow(s: seq<int>, n: nat)
    requires NoDup(s) && forall i :: 0 <= i < |s| ==> 0 <= s[i] < n
    ensures |s| <= n
  {
    if s == [] {
    } else {
      assert 0 <= s[0] < n;
      if n - 1 in s {
        var k :| 0 <= k < |s| && s[k] == n - 1;
        DistinctBelow(s[..k] + s[k + 1..], n - 1);
      } else {
        DistinctBelow(s, n - 1);
      }
    }
  }

  /** The load bound leaves an empty slot, so probing stops. */
  lemma EmptySlotExists(hashes: seq<u64>, index: seq<int>, disp: seq<nat>, n: nat) returns (z: nat)
    requires TableOk(hashes, index, disp, n)
    ensures z < |index| && index[z] == EMPTY
  {
    if forall s :: 0 <= s < |index| ==> index[s] != EMPTY {
      DistinctBelow(index, n);
    }
    z :| z < |index| && index[z] == EMPTY;
  }

  /** Steps from `home` to slot `z`. */
  function StepsTo(home: nat, z: nat, cap: nat): (e: nat)
    requires home < cap && z < cap
    ensures e < cap && SlotAt(home, e, cap) == z
  {
    if z >= home then z - home else z + cap - home
  }

  /** Writing a fresh entry number into the empty slot a probe found extends the table. */
  lemma TableExtend(hashes: seq<u64>, index: seq<int>, disp: seq<nat>, n: nat, e: nat)
    requires TableOk(hashes, index, disp, n) && n < |hashes| && n + 1 < |index| && e < |index|
    requires index[SlotAt(hashes[n] % |index|, e, |index|)] == EMPTY
    requires forall k: nat :: k < e ==> index[SlotAt(hashes[n] % |index|, k, |index|)] != EMPTY
    ensures TableOk(hashes, index[SlotAt(hashes[n] % |index|, e, |index|) := n], disp[..n] + [e], n + 1)
  {
    var cap := |index|;
    var at := SlotAt(hashes[n] % cap, e, cap);
    var index', disp' := index[at := n], disp[..n] + [e];
    forall i | 0 <= i < n + 1
      ensures disp'[i] < cap && index'[SlotAt(hashes[i] % cap, disp'[i], cap)] == i
    {
    }
    forall i, k: nat | 0 <= i < n + 1 && k < disp'[i]
      ensures index'[SlotAt(hashes[i] % cap, k, cap)] != EMPTY
    {
      assert i < n ==> disp'[i] == disp[i];
    }
  }

  /**
   At the empty slot that ends a probe for `key`, no entry matches: a matching
   entry would share the home slot and lie either before the stop, where it
   would have been seen, or after it, where the path may not hold a gap.
   */
  lemma ProbeMissed<K(!new), V>(ks: Keys<K>, es: seq<(K, V)>, hashes: seq<u64>, index: seq<int>, disp: seq<nat>,
                                key: K, e: nat)
    requires KeyLaw(ks) && |hashes| == |es| && TableOk(hashes, index, disp, |es|) && e < |index|
    requires forall i :: 0 <= i < |es| ==> hashes[i] == ks.hash(es[i].0)
    requires index[SlotAt(ks.hash(key) % |index|, e, |index|)] == EMPTY
    requires forall k: nat :: k < e ==> NoHit(ks, es, index, ks.hash(key) % |index|, key, k)
    ensures Scan(ks, es, key) == None
  {
    var home := ks.hash(key) % |index|;
    forall i | 0 <= i < |es|
      ensures !ks.eq(es[i].0, key)
    {
      var own := hashes[i] % |index|;
      assert ks.eq(es[i].0, key) ==> own == home;
      assert disp[i] < e ==> NoHit(ks, es, index, home, key, disp[i]);
    }
    NoMatchIsNone(ks, es, key);
  }

  /** The slot `k` steps past `home` holds an entry whose key is not `key`. */
  ghost predicate NoHit<K, V>(ks: Keys<K>, es: seq<(K, V)>, index: seq<int>, home: nat, key: K, k: nat) {
    && 0 <= SlotAt(home, k, |index|) < |index|
    && 0 <= index[SlotAt(home, k, |index|)] < |es|
    && !ks.eq(es[index[SlotAt(home, k, |index|)]].0, key)
  }

  class HashMap<K(!new), V> {
    const ks: Keys<K>
    var entries: seq<(K, V)>
    var hashes: seq<u64>
    var index: seq<int>
    /** Probe distance of each indexed entry. */
    ghost var disp: seq<nat>

    /**
     Hashes are those of the keys and keys are distinct; the index is absent
     and there are fewer than 16 entries, or it is a power-of-two probe table
     under three quarters full.
     */
    ghost predicate Valid()
      reads this
    {
      && KeyLaw(ks)
      && |hashes| == |entries| <= I32_LIMIT
      && (forall i :: 0 <= i < |entries| ==> hashes[i] == ks.hash(entries[i].0))
      && Distinct(ks, entries)
      && (if index == [] then |entries| < HASH_THRESHOLD
          else IsPow2(|index|) && 4 * |entries| < 3 * |index| && TableOk(hashes, index, disp, |entries|))
    }

    constructor (keys: Keys<K>)
      requires KeyLaw(keys)
      ensures Valid() && entries == [] && ks == keys
    {
      ks, entries, hashes, index, disp := keys, [], [], [], [];
    }

    /** The entry of `key`: a linear scan, or a probe of the table that always stops. */
    method Find(key: K, hash: u64) returns (r: Option<nat>)
      requires Valid() && hash == ks.hash(key)
      ensures r == Scan(ks, entries, key)
    {
      if |index| == 0 {
        for i := 0 to |entries|
          invariant forall j :: 0 <= j < i ==> !ks.eq(entries[j].0, key)
        {
          if hashes[i] == hash && ks.eq(entries[i].0, key) {
            MatchIsScan(ks, entries, key, i);
            return Some(i);
          }
        }
        NoMatchIsNone(ks, entries, key);
        return None;
      }
      r := Probe(key, hash);
    }

    method Probe(key: K, hash: u64) returns (r: Option<nat>)
      requires Valid() && index != [] && hash == ks.hash(key)
      ensures r == Scan(ks, entries, key)
    {
      hide BitAnd, IsPow2, AsUsize, AsI32;
      var cap := |index|;
      MaskFacts(hash, cap);
      var slot := BitAnd(hash, cap - 1);
      ghost var home := slot;
      ghost var z := EmptySlotExists(hashes, index, disp, |entries|);
      ghost var last := StepsTo(home, z, cap);
      ghost var e := 0;
      while true
        invariant e <= last && slot == SlotAt(home, e, cap)
        invariant forall k: nat :: k < e ==> NoHit(ks, entries, index, home, key, k)
        decreases last - e
      {
        if index[slot] == EMPTY {
          ProbeMissed(ks, entries, hashes, index, disp, key, e);
          return None;
        }
        var ei := AsUsize(index[slot]);
        NumberReadBack(index[slot]);
        if hashes[ei] == hash && ks.eq(entries[ei].0, key) {
          MatchIsScan(ks, entries, key, ei);
          return Some(ei);
        }
        assert NoHit(ks, entries, index, home, key, e);
        MaskFacts(slot, cap);
        slot := BitAnd(slot + 1, cap - 1);
        e := e + 1;
      }
    }

    method Get(key: K, hash: u64) returns (r: Option<V>)
      requires Valid() && hash == ks.hash(key)
      ensures r == Lookup(ks, entries, key)
    {
      var i := Find(key, hash);
      r := if i.Some? then Some(entries[i.value].1) else None;
    }

    method Contains(key: K, hash: u64) returns (b: bool)
      requires Valid() && hash == ks.hash(key)
      ensures b == Lookup(ks, entries, key).Some?
    {
      var i := Find(key, hash);
      b := i.Some?;
    }

    /** Place entry `n` in the first empty slot from its home; its number must survive the cast to count. */
    method IndexInsert(n: nat, hash: u64)
      requires IsPow2(|index|) && n + 1 < |index| && n < |hashes| && hash == hashes[n]
      requires TableOk(hashes, index, disp, n)
      modifies this`index, this`disp
      ensures |index| == |old(index)|
      ensures n < I32_LIMIT ==> TableOk(hashes, index, disp, n + 1)
    {
      hide BitAnd, IsPow2;
      var cap := |index|;
      MaskFacts(hash, cap);
      var slot := BitAnd(hash, cap - 1);
      ghost var home := slot;
      ghost var z := EmptySlotExists(hashes, index, disp, n);
      ghost var last := StepsTo(home, z, cap);
      ghost var e := 0;
      while index[slot] != EMPTY
        invariant e <= last && slot == SlotAt(home, e, cap)
        invariant index == old(index) && disp == old(disp)
        invariant forall k: nat :: k < e ==> index[SlotAt(home, k, cap)] != EMPTY
        decreases last - e
      {
        MaskFacts(slot, cap);
        slot := BitAnd(slot + 1, cap - 1);
        e := e + 1;
      }
      TableExtend(hashes, index, disp, n, e);
      if n < I32_LIMIT {
        NumberReadBack(n);
      }
      index := index[slot := AsI32(n)];
      disp := disp[..n] + [e];
    }

    /** Build the table afresh, sized for the entries. */
    method RebuildIndex()
      requires |hashes| == |entries| <= I32_LIMIT + 1
      modifies this`index, this`disp
      ensures index != [] && IsPow2(|index|) && 4 * |entries| < 3 * |index|
      ensures |entries| <= I32_LIMIT ==> TableOk(hashes, index, disp, |entries|)
    {
      var cap := CapacityFor(|entries|);
      CapacityOk(|entries|);
      index := seq(cap, _ => EMPTY);
      disp := [];
      for i := 0 to |entries|
        invariant |index| == cap && (i <= I32_LIMIT ==> TableOk(hashes, index, disp, i))
      {
        IndexInsert(i, hashes[i]);
      }
    }

    /** The entries are always those of the list; past 2^31 of them the index no longer describes them. */
    method Insert(key: K, hash: u64, val: V)
      requires Valid() && hash == ks.hash(key)
      modifies this
      ensures entries == Put(ks, old(entries), key, val)
      ensures |entries| <= I32_LIMIT ==> Valid()
    {
      hide TableOk, IsPow2, KeyLaw, Distinct;
      var at := Find(key, hash);
      LookupPut(ks, entries, key, val, key);
      if at.Some? {
        entries := entries[at.value := (entries[at.value].0, val)];
        return;
      }
      ghost var was := hashes;
      entries := entries + [(key, val)];
      hashes := hashes + [hash];
      IndexLast(hash, was);
    }

    /** Bring the index up to date with the entry just appended. */
    method IndexLast(hash: u64, ghost was: seq<u64>)
      requires |hashes| == |entries| && hashes == was + [hash] && |was| <= I32_LIMIT
      requires if index == [] then |was| < HASH_THRESHOLD
               else IsPow2(|index|) && 4 * |was| < 3 * |index| && TableOk(was, index, disp, |was|)
      modifies this`index, this`disp
      ensures if index == [] then |entries| < HASH_THRESHOLD
              else IsPow2(|index|) && 4 * |entries| < 3 * |index|
                   && (|entries| <= I32_LIMIT ==> TableOk(hashes, index, disp, |entries|))
    {
      hide TableOk, IsPow2;
      var n := |entries| - 1;
      if |index| == 0 {
        if |entries| >= HASH_THRESHOLD {
          RebuildIndex();
        }
      } else if |entries| * 4 >= |index| * 3 {
        RebuildIndex();
      } else {
        TableGrowHashes(was, hash, index, disp, n);
        IndexInsert(n, hash);
      }
    }

    /** Remove an entry; later entries shift, so a present index is rebuilt. */
    method Remove(key: K, hash: u64) returns (r: Option<V>)
      requires Valid() && hash == ks.hash(key)
      modifies this
      ensures Valid() && entries == Drop(ks, old(entries), key)
      ensures r == Lookup(ks, old(entries), key)
    {
      hide TableOk, IsPow2, KeyLaw, Distinct;
      var at := Find(key, hash);
      LookupDrop(ks, entries, key, key);
      if at.None? {
        return None;
      }
      r := Some(entries[at.value].1);
      entries := entries[..at.value] + entries[at.value + 1..];
      hashes := hashes[..at.value] + hashes[at.value + 1..];
      if |index| > 0 {
        RebuildIndex();
      }
    }

    method Clear()
      requires Valid()
      modifies this
      ensures Valid() && entries == []
    {
      entries, hashes, index := [], [], [];
    }
  }

  lemma TableGrowHashes(hashes: seq<u64>, hash: u64, index: seq<int>, disp: seq<nat>, n: nat)
    requires TableOk(hashes, index, disp, n) && n == |hashes|
    ensures TableOk(hashes + [hash], index, disp, n)
  {
  }

  // ----- whole histories -----

  datatype Op<K, V> = DoPut(key: K, val: V) | DoGet(key: K) | DoHas(key: K) | DoRemove(key: K) | DoClear
  datatype Answer<V> = NoAnswer | Got(value: Option<V>) | Has(present: bool)

  /** One operation on the association list: the new list and the answer. */
  function ListOp<K, V>(ks: Keys<K>, es: seq<(K, V)>, op: Op<K, V>): (seq<(K, V)>, Answer<V>) {
    match op
    case DoPut(k, v) => (Put(ks, es, k, v), NoAnswer)
    case DoGet(k) => (es, Got(Lookup(ks, es, k)))
    case DoHas(k) => (es, Has(Lookup(ks, es, k).Some?))
    case DoRemove(k) => (Drop(ks, es, k), Got(Lookup(ks, es, k)))
    case DoClear => ([], NoAnswer)
  }

  function ListRun<K, V>(ks: Keys<K>, es: seq<(K, V)>, ops: seq<Op<K, V>>): (seq<(K, V)>, seq<Answer<V>>) {
    if ops == [] then (es, [])
    else
      var (mid, answers) := ListRun(ks, es, Init(ops));
      var (end, a) := ListOp(ks, mid, Last(ops));
      (end, answers + [a])
  }

  /** Before each operation the list is within what the index can number. */
  ghost predicate Numbered<K, V>(ks: Keys<K>, es: seq<(K, V)>, ops: seq<Op<K, V>>) {
    forall i :: 0 <= i < |ops| ==> |ListRun(ks, es, ops[..i]).0| <= I32_LIMIT
  }

  /** Any sequence of operations gives the answers and the entry order of the association list. */
  method RunOps<K(!new), V>(m: HashMap<K, V>, ops: seq<Op<K, V>>) returns (answers: seq<Answer<V>>)
    requires m.Valid() && Numbered(m.ks, m.entries, ops)
    modifies m
    ensures (m.entries, answers) == ListRun(m.ks, old(m.entries), ops)
    ensures |m.entries| <= I32_LIMIT ==> m.Valid()
  {
    answers := [];
    for i := 0 to |ops|
      invariant |m.entries| <= I32_LIMIT ==> m.Valid()
      invariant (m.entries, answers) == ListRun(m.ks, old(m.entries), ops[..i])
    {
      assert Init(ops[..i + 1]) == ops[..i];
      var a := RunOp(m, ops[i]);
      answers := answers + [a];
    }
    assert ops[..|ops|] == ops;
  }

  method RunOp<K(!new), V>(m: HashMap<K, V>, op: Op<K, V>) returns (a: Answer<V>)
    requires m.Valid()
    modifies m
    ensures (m.entries, a) == ListOp(m.ks, old(m.entries), op)
    ensures |m.entries| <= I32_LIMIT ==> m.Valid()
  {
    match op
    case DoPut(k, v) =>
      m.Insert(k, m.ks.hash(k), v);
      a := NoAnswer;
    case DoGet(k) =>
      var r := m.Get(k, m.ks.hash(k));
      a := Got(r);
    case DoHas(k) =>
      var b := m.Contains(k, m.ks.hash(k));
      a := Has(b);
    case DoRemove(k) =>
      var r := m.Remove(k, m.ks.hash(k));
      a := Got(r);
    case DoClear =>
      m.Clear();
      a := NoAnswer;
  }
}
