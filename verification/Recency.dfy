/** The value-level specification of the prefix KV-block cache: which block hashes are
    held, in least-recently-used order (oldest first), and what a save does to them.
    The imperative manager in KvCache.dfy is proved to compute exactly these functions;
    the capacity theorems are proved here. */
module Recency {
  import opened Common

  type Hash = int

  /** `_evict(80)` counts its argument down to -1, so one reclaim frees 81 blocks. */
  const BATCH := 81

  /** 1% of the blocks, truncated: 0 for every pool of fewer than 100 blocks. */
  function Watermark(n: nat): nat { n / 100 }

  /** The most blocks a pool with a positive watermark ever holds. */
  function Ceiling(n: nat): int { n - Watermark(n) + 1 }

  /** The longest save that is kept whole from every state. */
  function SafeBlocks(n: nat): int { n - Watermark(n) - 79 }

  /** `held`: hashes with a block and an LRU entry, oldest first. `orphans`: hashes recorded
      with block id -1 and without an LRU entry, left behind by a failed save. */
  datatype Store = Store(held: seq<Hash>, orphans: set<Hash>)

  datatype Outcome = Kept(store: Store, misses: nat) | Full(store: Store)

  const EMPTY := Store([], {})

  function Elems<T>(s: seq<T>): set<T> { set x | x in s }

  /** The invariant of every store reached by saves on a pool of n blocks. */
  ghost predicate Good(n: nat, s: Store) {
    && Distinct(s.held) && |s.held| <= n
    && (forall h :: h in s.orphans ==> h !in s.held)
    && (s.orphans != {} ==> n < 100 && |s.held| == n)
    && (n >= 100 ==> |s.held| <= Ceiling(n))
  }

  function IndexOf<T(==)>(s: seq<T>, x: T): (i: nat)
    requires x in s
    ensures i < |s| && s[i] == x && x !in s[..i]
  {
    if s[0] == x then 0 else 1 + IndexOf(s[1..], x)
  }

  function Without<T(==)>(s: seq<T>, x: T): (r: seq<T>)
    requires x in s
    ensures |r| == |s| - 1
  {
    if s[0] == x then s[1..] else [s[0]] + Without(s[1..], x)
  }

  function MoveToEnd<T(==)>(s: seq<T>, x: T): (r: seq<T>)
    requires x in s
    ensures |r| == |s|
  {
    Without(s, x) + [x]
  }

  lemma {:induction false} WithoutAt<T>(s: seq<T>, x: T)
    requires x in s
    ensures var i := IndexOf(s, x); Without(s, x) == s[..i] + s[i + 1..]
  {
    if s[0] != x {
      var t := s[1..];
      var i := IndexOf(t, x);
      assert Without(t, x) == t[..i] + t[i + 1..] by { WithoutAt(t, x); }
      assert s[..i + 1] == [s[0]] + t[..i];
      assert t[i + 1..] == s[i + 2..];
      assert [s[0]] + (t[..i] + t[i + 1..]) == s[..i + 1] + s[i + 2..];
    }
  }

  /** `_check_and_reclaim_cache`: below the watermark, drop the 81 oldest. */
  function Reclaim(n: nat, held: seq<Hash>): (r: seq<Hash>)
    requires |held| <= n
    ensures |r| <= |held|
  {
    if n - |held| < Watermark(n) then held[BATCH..] else held
  }

  /** One iteration of the save loop. */
  function Touch(n: nat, s: Store, h: Hash): (o: Outcome)
    requires |s.held| <= n
    ensures |o.store.held| <= n
  {
    if h in s.held then Kept(s.(held := MoveToEnd(s.held, h)), 0)
    else if h in s.orphans then Kept(s, 0)
    else
      var kept := Reclaim(n, s.held);
      if |kept| < n then Kept(s.(held := kept + [h]), 1)
      else Full(Store(kept, s.orphans + {h}))
  }

  function TouchAll(n: nat, s: Store, hs: seq<Hash>): (o: Outcome)
    requires |s.held| <= n
    ensures |o.store.held| <= n
    decreases |hs|
  {
    if hs == [] then Kept(s, 0)
    else
      match Touch(n, s, hs[0])
      case Full(t) => Full(t)
      case Kept(t, m) =>
        match TouchAll(n, t, hs[1..])
        case Full(u) => Full(u)
        case Kept(u, k) => Kept(u, m + k)
  }

  /** `get_num_cached_blocks`: how many leading hashes are held. */
  function Lookup(held: seq<Hash>, hs: seq<Hash>): (k: nat)
    ensures k <= |hs|
    ensures forall i :: 0 <= i < k ==> hs[i] in held
    ensures k < |hs| ==> hs[k] !in held
  {
    if hs == [] || hs[0] !in held then 0 else 1 + Lookup(held, hs[1..])
  }

  // ---------------------------------------------------------------- invariants

  lemma MoveToEndFacts<T>(s: seq<T>, x: T)
    requires Distinct(s) && x in s
    ensures Distinct(MoveToEnd(s, x))
    ensures forall y :: y in MoveToEnd(s, x) <==> y in s
  {
    hide Without, IndexOf;
    var i := IndexOf(s, x);
    var r := MoveToEnd(s, x);
    WithoutAt(s, x);
    assert r == s[..i] + s[i + 1..] + [x];
    forall y ensures y in r <==> y in s {
      assert s == s[..i] + [x] + s[i + 1..];
    }
    assert forall k :: 0 <= k < i ==> r[k] == s[k];
    assert forall k :: i <= k < |s| - 1 ==> r[k] == s[k + 1];
  }

  lemma TouchKeepsGood(n: nat, s: Store, h: Hash)
    requires Good(n, s)
    ensures Good(n, Touch(n, s, h).store)
  {
    if h in s.held { MoveToEndFacts(s.held, h); }
  }

  lemma {:induction false} TouchAllKeepsGood(n: nat, s: Store, hs: seq<Hash>)
    requires Good(n, s)
    ensures Good(n, TouchAll(n, s, hs).store)
    decreases |hs|
  {
    if hs != [] {
      TouchKeepsGood(n, s, hs[0]);
      var o := Touch(n, s, hs[0]);
      if o.Kept? { TouchAllKeepsGood(n, o.store, hs[1..]); }
    }
  }

  /** The hashes of hs that the store knows nothing about. */
  function New(s: Store, hs: seq<Hash>): set<Hash> { Elems(hs) - Elems(s.held) - s.orphans }

  lemma NewAfterHit(s: Store, t: Store, hs: seq<Hash>)
    requires hs != [] && (hs[0] in s.held || hs[0] in s.orphans)
    requires s.orphans == t.orphans && forall x :: x in t.held <==> x in s.held
    ensures New(t, hs[1..]) == New(s, hs)
  {
    assert Elems(hs) == {hs[0]} + Elems(hs[1..]);
    assert forall x :: x in Elems(t.held) <==> x in Elems(s.held);
  }

  lemma NewAfterMiss(s: Store, t: Store, hs: seq<Hash>)
    requires hs != [] && hs[0] !in s.held && hs[0] !in s.orphans
    requires s.orphans == t.orphans && t.held == s.held + [hs[0]]
    ensures hs[0] in New(s, hs) && |New(t, hs[1..])| == |New(s, hs)| - 1
  {
    assert Elems(hs) == {hs[0]} + Elems(hs[1..]);
    assert Elems(t.held) == Elems(s.held) + {hs[0]};
    assert New(t, hs[1..]) == New(s, hs) - {hs[0]};
  }

  /** With a positive watermark every iteration completes. */
  lemma {:induction false} NeverFull(n: nat, s: Store, hs: seq<Hash>)
    requires Good(n, s) && n >= 100
    ensures TouchAll(n, s, hs).Kept?
    decreases |hs|
  {
    if hs != [] {
      TouchKeepsGood(n, s, hs[0]);
      NeverFull(n, Touch(n, s, hs[0]).store, hs[1..]);
    }
  }

  lemma {:induction false} FullSmallPool(n: nat, s: Store, hs: seq<Hash>)
    requires Good(n, s) && n < 100
    ensures TouchAll(n, s, hs).Full? <==> |New(s, hs)| > n - |s.held|
    decreases |hs|
  {
    if hs == [] {
      assert New(s, hs) == {};
    } else {
      var h, o := hs[0], Touch(n, s, hs[0]);
      TouchKeepsGood(n, s, h);
      if h in s.held || h in s.orphans {
        if h in s.held { MoveToEndFacts(s.held, h); }
        NewAfterHit(s, o.store, hs);
        FullSmallPool(n, o.store, hs[1..]);
      } else if o.Kept? {
        NewAfterMiss(s, o.store, hs);
        FullSmallPool(n, o.store, hs[1..]);
      } else {
        NewAfterMiss(s, s.(held := s.held + [h]), hs);
      }
    }
  }

  /** Exactly when a save raises the "queue is full" KeyError: never on a pool with a
      positive watermark, and otherwise when there are more new hashes than free blocks. */
  lemma FullExactly(n: nat, s: Store, hs: seq<Hash>)
    requires Good(n, s)
    ensures TouchAll(n, s, hs).Full? <==> n < 100 && |New(s, hs)| > n - |s.held|
  {
    if n < 100 { FullSmallPool(n, s, hs); } else { NeverFull(n, s, hs); }
  }

  // ---------------------------------------------------------------- save, then query

  /** held[i..] are exactly the hashes touched so far. */
  ghost predicate NewestFrom(held: seq<Hash>, i: nat, touched: seq<Hash>) {
    i <= |held| && Elems(held[i..]) == Elems(touched)
  }

  lemma {:induction false} DistinctCard<T>(s: seq<T>)
    requires Distinct(s)
    ensures |Elems(s)| == |s|
  {
    if s != [] {
      DistinctCard(s[1..]);
      assert Elems(s) == {s[0]} + Elems(s[1..]);
    }
  }

  lemma HitNewest(held: seq<Hash>, h: Hash, i: nat, t: seq<Hash>) returns (j: nat)
    requires Distinct(held) && NewestFrom(held, i, t) && h in held
    ensures NewestFrom(MoveToEnd(held, h), j, t + [h])
  {
    var k, r := IndexOf(held, h), MoveToEnd(held, h);
    WithoutAt(held, h);
    assert Elems(t + [h]) == Elems(t) + {h};
    if k < i {
      j := i - 1;
      assert r[j..] == held[i..] + [h];
    } else {
      j := i;
      assert r[j..] == held[i..k] + held[k + 1..] + [h];
      assert held[i..] == held[i..k] + [h] + held[k + 1..];
    }
  }

  /** The hashes touched so far are the newest suffix, so 81 older blocks are there to be
      evicted as long as the touched ones are few enough. */
  lemma MissNewest(n: nat, held: seq<Hash>, h: Hash, i: nat, t: seq<Hash>) returns (j: nat)
    requires n >= 100 && |held| <= Ceiling(n) && Distinct(held) && NewestFrom(held, i, t)
    requires |Elems(t)| < SafeBlocks(n)
    ensures NewestFrom(Reclaim(n, held) + [h], j, t + [h])
  {
    var gone := if n - |held| < Watermark(n) then BATCH else 0;
    assert gone <= i by { DistinctCard(held[i..]); }
    assert Reclaim(n, held) == held[gone..];
    j := i - gone;
    DropFront(held, h, i, gone);
    assert Elems(t + [h]) == Elems(t) + {h};
  }

  lemma DropFront(held: seq<Hash>, h: Hash, i: nat, gone: nat)
    requires gone <= i <= |held|
    ensures Elems((held[gone..] + [h])[i - gone..]) == Elems(held[i..]) + {h}
  {
    assert (held[gone..] + [h])[i - gone..] == held[i..] + [h];
  }

  lemma {:induction false} TouchAllNewest(n: nat, s: Store, hs: seq<Hash>, i: nat, t: seq<Hash>) returns (j: nat)
    requires Good(n, s) && n >= 100 && NewestFrom(s.held, i, t)
    requires |Elems(t + hs)| <= SafeBlocks(n)
    ensures TouchAll(n, s, hs).Kept?
    ensures NewestFrom(TouchAll(n, s, hs).store.held, j, t + hs)
    decreases |hs|
  {
    if hs == [] {
      assert t + hs == t;
      j := i;
    } else {
      var h := hs[0];
      assert t + [h] + hs[1..] == t + hs;
      TouchKeepsGood(n, s, h);
      var k: nat;
      if h in s.held {
        k := HitNewest(s.held, h, i, t);
      } else {
        FewerElems(s.held, i, t, hs);
        k := MissNewest(n, s.held, h, i, t);
      }
      j := TouchAllNewest(n, Touch(n, s, h).store, hs[1..], k, t + [h]);
    }
  }

  lemma FewerElems(held: seq<Hash>, i: nat, t: seq<Hash>, hs: seq<Hash>)
    requires NewestFrom(held, i, t) && hs != [] && hs[0] !in held
    ensures |Elems(t)| < |Elems(t + hs)|
  {
    assert hs[0] !in Elems(t) by { assert hs[0] !in Elems(held[i..]); }
    assert Elems(t) + {hs[0]} <= Elems(t + hs) by { assert hs[0] == (t + hs)[|t|]; }
    SubsetCard(Elems(t) + {hs[0]}, Elems(t + hs));
  }

  lemma {:induction false} SubsetCard<T>(a: set<T>, b: set<T>)
    requires a <= b
    ensures |a| <= |b|
  {
    assert b == a + (b - a);
  }

  lemma {:induction false} LookupAll(held: seq<Hash>, hs: seq<Hash>)
    requires forall h :: h in hs ==> h in held
    ensures Lookup(held, hs) == |hs|
  {
    if hs != [] {
      var h := hs[0];
      assert h in hs;
      LookupAll(held, hs[1..]);
    }
  }

  /** A save whose distinct hashes number at most SafeBlocks(n) is found whole by the next
      lookup, from every state and whatever evictions run inside the save. Nothing is
      assumed about the hash function: colliding blocks are counted once. */
  lemma SaveThenLookup(n: nat, s: Store, hs: seq<Hash>)
    requires Good(n, s) && n >= 100 && |Elems(hs)| <= SafeBlocks(n)
    ensures TouchAll(n, s, hs).Kept?
    ensures Lookup(TouchAll(n, s, hs).store.held, hs) == |hs|
  {
    assert [] + hs == hs;
    assert NewestFrom(s.held, |s.held|, []);
    var j := TouchAllNewest(n, s, hs, |s.held|, []);
    var r := TouchAll(n, s, hs).store.held;
    forall h | h in hs ensures h in r {
      assert h in Elems(hs);
      assert h in r[j..];
    }
    LookupAll(r, hs);
  }

  // ---------------------------------------------------------------- all or nothing

  /** The two sequences agree on their last min(|a|, |b|) elements. */
  ghost predicate Aligned(a: seq<Hash>, b: seq<Hash>) {
    forall i, j :: 0 <= i < |a| && 0 <= j < |b| && |a| - i == |b| - j ==> a[i] == b[j]
  }

  lemma HitAligned(held: seq<Hash>, h: Hash, t: seq<Hash>)
    requires h in held && Aligned(held, t) && h !in t
    ensures Aligned(MoveToEnd(held, h), t + [h])
  {
    var i := IndexOf(held, h);
    WithoutAt(held, h);
    SharedTail(held, t);
  }

  lemma SharedTail(a: seq<Hash>, b: seq<Hash>)
    requires Aligned(a, b)
    ensures forall i :: 0 <= i < |a| && |a| - |b| <= i ==> a[i] in b
  {
    forall i | 0 <= i < |a| && |a| - |b| <= i ensures a[i] in b {
      assert a[i] == b[|b| - (|a| - i)];
    }
  }

  lemma {:induction false} TouchAllAligned(n: nat, s: Store, hs: seq<Hash>, t: seq<Hash>)
    requires Good(n, s) && s.orphans == {} && Aligned(s.held, t) && Distinct(t + hs)
    requires TouchAll(n, s, hs).Kept?
    ensures Aligned(TouchAll(n, s, hs).store.held, t + hs)
    decreases |hs|
  {
    if hs == [] {
      assert t + hs == t;
    } else {
      var h := hs[0];
      assert t + [h] + hs[1..] == t + hs;
      TouchKeepsGood(n, s, h);
      NotBefore(t, hs);
      if h in s.held {
        HitAligned(s.held, h, t);
      } else {
        assert Aligned(Reclaim(n, s.held) + [h], t + [h]);
      }
      TouchAllAligned(n, Touch(n, s, h).store, hs[1..], t + [h]);
    }
  }

  lemma NotBefore(t: seq<Hash>, hs: seq<Hash>)
    requires hs != [] && Distinct(t + hs)
    ensures hs[0] !in t
  {
    forall i | 0 <= i < |t| ensures t[i] != hs[0] {
      assert (t + hs)[i] != (t + hs)[|t|];
    }
  }

  lemma LookupAligned(r: seq<Hash>, hs: seq<Hash>)
    requires Distinct(hs) && Aligned(r, hs)
    ensures Lookup(r, hs) == if |hs| <= |r| then |hs| else 0
  {
    if |hs| <= |r| {
      forall h | h in hs ensures h in r {
        var i := IndexOf(hs, h);
        assert r[|r| - (|hs| - i)] == hs[i];
      }
      LookupAll(r, hs);
    } else {
      forall j | 0 <= j < |r| ensures r[j] != hs[0] {
        assert r[j] == hs[|hs| - (|r| - j)];
      }
    }
  }

  /** Eviction removes the front of a prompt first, so right after a completed save of
      distinct blocks a lookup finds all of them or none of them; all exactly when the
      pool holds at least that many blocks. */
  lemma AllOrNothing(n: nat, s: Store, hs: seq<Hash>)
    requires Good(n, s) && s.orphans == {} && Distinct(hs)
    requires TouchAll(n, s, hs).Kept?
    ensures var r := TouchAll(n, s, hs).store.held;
            Lookup(r, hs) == if |hs| <= |r| then |hs| else 0
  {
    assert [] + hs == hs;
    TouchAllAligned(n, s, hs, []);
    LookupAligned(TouchAll(n, s, hs).store.held, hs);
  }

  // ---------------------------------------------------------------- amortised eviction

  /** The number of held blocks after m misses, starting from c. */
  function Grow(n: nat, c: nat, m: nat): int
    requires n >= 100 && c <= Ceiling(n)
    decreases m
  {
    if m == 0 then c
    else Grow(n, (if n - c < Watermark(n) then c - BATCH else c) + 1, m - 1)
  }

  /** The held count depends on the number of misses alone, not on which blocks they were
      nor on the hits between them. */
  lemma {:induction false} SizeByMisses(n: nat, s: Store, hs: seq<Hash>)
    requires Good(n, s) && n >= 100
    ensures var o := TouchAll(n, s, hs);
            o.Kept? && |o.store.held| == Grow(n, |s.held|, o.misses)
    decreases |hs|
  {
    if hs != [] {
      var o := Touch(n, s, hs[0]);
      TouchKeepsGood(n, s, hs[0]);
      assert o.Kept? && |o.store.held| == Grow(n, |s.held|, o.misses);
      SizeByMisses(n, o.store, hs[1..]);
    }
  }

  /** Reclaims needed for m misses starting from an empty pool: none for the first
      Ceiling(n), then one every 81 misses. */
  function Batches(n: nat, m: nat): nat
    requires n >= 100
  {
    if m <= Ceiling(n) then 0 else (m - Ceiling(n) - 1) / BATCH + 1
  }

  lemma {:induction false} GrowStep(n: nat, c: nat, m: nat)
    requires n >= 100 && c <= Ceiling(n)
    ensures 0 <= Grow(n, c, m) <= Ceiling(n)
    ensures var g := Grow(n, c, m);
            Grow(n, c, m + 1) == (if n - g < Watermark(n) then g - BATCH else g) + 1
    decreases m
  {
    if m > 0 {
      GrowStep(n, (if n - c < Watermark(n) then c - BATCH else c) + 1, m - 1);
    }
  }

  /** Allocations minus 81 per reclaim is the held count, which never passes the ceiling;
      and two reclaims are exactly 81 allocations apart. */
  lemma {:induction false} Amortised(n: nat, m: nat)
    requires n >= 100
    ensures Grow(n, 0, m) == m - BATCH * Batches(n, m)
    ensures 0 <= Grow(n, 0, m) <= Ceiling(n)
    ensures Batches(n, m + 1) > Batches(n, m) <==> Grow(n, 0, m) == Ceiling(n)
    ensures m > Ceiling(n) ==> Batches(n, m + BATCH) == Batches(n, m) + 1
    decreases m
  {
    if m > 0 {
      Amortised(n, m - 1);
      GrowStep(n, 0, m - 1);
    }
  }

  /** An allocation adds one reclaim when the held count is past the watermark, else none; and
      an allocation that reclaims is followed by 80 that do not. */
  lemma BatchStep(n: nat, m: nat)
    requires n >= 100
    ensures Batches(n, m + 1) == Batches(n, m) + if m - BATCH * Batches(n, m) > n - Watermark(n) then 1 else 0
    ensures Batches(n, m + 1) > Batches(n, m) ==>
              forall k :: m + 1 <= k <= m + BATCH ==> Batches(n, k) == Batches(n, m + 1)
  {
    Amortised(n, m);
    Amortised(n, m + 1);
    GrowStep(n, 0, m);
    if Batches(n, m + 1) > Batches(n, m) {
      assert m - Ceiling(n) == BATCH * Batches(n, m);
      forall k | m + 1 <= k <= m + BATCH ensures Batches(n, k) == Batches(n, m + 1) {
        assert 0 <= k - Ceiling(n) - 1 - BATCH * Batches(n, m) < BATCH;
      }
    }
  }

  lemma ReclaimStep(n: nat, m: nat, held: seq<Hash>)
    requires n >= 100 && |held| <= n && |held| == m - BATCH * Batches(n, m)
    ensures Batches(n, m + 1) == Batches(n, m) + if |held| > n - Watermark(n) then 1 else 0
    ensures |Reclaim(n, held)| < n && |Reclaim(n, held)| + 1 == m + 1 - BATCH * Batches(n, m + 1)
  {
    BatchStep(n, m);
    Amortised(n, m);
  }

  /** What a save does with an unrecorded hash. */
  lemma TouchNew(n: nat, s: Store, h: Hash)
    requires |s.held| <= n && h !in s.held && h !in s.orphans
    ensures var kept := Reclaim(n, s.held);
            Touch(n, s, h) == if |kept| < n then Kept(s.(held := kept + [h]), 1) else Full(Store(kept, s.orphans + {h}))
    ensures n < 100 ==> Reclaim(n, s.held) == s.held
    ensures h !in Reclaim(n, s.held)
  {
  }

  // ---------------------------------------------------------------- the bound is exact

  lemma {:induction false} AllMisses(n: nat, s: Store, hs: seq<Hash>)
    requires Good(n, s) && n >= 100 && Distinct(hs)
    requires forall h :: h in hs ==> h !in s.held
    ensures TouchAll(n, s, hs).Kept? && TouchAll(n, s, hs).misses == |hs|
    decreases |hs|
  {
    if hs != [] {
      TouchKeepsGood(n, s, hs[0]);
      assert hs[0] in hs && forall h :: h in hs[1..] ==> h in hs && h != hs[0];
      AllMisses(n, Touch(n, s, hs[0]).store, hs[1..]);
    }
  }

  lemma {:induction false} GrowFrom80(n: nat, m: nat)
    requires n >= 100 && SafeBlocks(n) < m <= Ceiling(n)
    ensures Grow(n, 80, m) == m - 1
    decreases m
  {
    GrowStep(n, 80, m - 1);
    if m == SafeBlocks(n) + 1 {
      GrowLinear(n, 80, m - 1);
    } else {
      GrowFrom80(n, m - 1);
    }
  }

  lemma {:induction false} GrowLinear(n: nat, c: nat, m: nat)
    requires n >= 100 && c + m <= Ceiling(n)
    ensures Grow(n, c, m) == c + m
    decreases m
  {
    if m > 0 { GrowLinear(n, c + 1, m - 1); }
  }

  /** A save of any b > SafeBlocks(n) distinct blocks is lost completely when it follows a
      save of 80 other blocks on an empty pool. */
  lemma LostSave(n: nat, others: seq<Hash>, hs: seq<Hash>)
    requires n >= 100 && |others| == 80 && Distinct(others) && Distinct(hs)
    requires forall h :: h in hs ==> h !in others
    requires |hs| > SafeBlocks(n)
    ensures var s := TouchAll(n, EMPTY, others).store;
            Good(n, s) && TouchAll(n, s, hs).Kept? && Lookup(TouchAll(n, s, hs).store.held, hs) == 0
  {
    TouchAllKeepsGood(n, EMPTY, others);
    AllMisses(n, EMPTY, others);
    SizeByMisses(n, EMPTY, others);
    GrowLinear(n, 0, 80);
    var s := TouchAll(n, EMPTY, others).store;
    OnlyTouched(n, EMPTY, others);
    AllMisses(n, s, hs);
    SizeByMisses(n, s, hs);
    TouchAllKeepsGood(n, s, hs);
    AllOrNothing(n, s, hs);
    if |hs| <= Ceiling(n) { GrowFrom80(n, |hs|); }
  }

  /** Nothing is held that was neither held before nor just saved. */
  lemma {:induction false} OnlyTouched(n: nat, s: Store, hs: seq<Hash>)
    requires Good(n, s)
    ensures forall h :: h in TouchAll(n, s, hs).store.held ==> h in s.held || h in hs
    decreases |hs|
  {
    if hs != [] {
      var o := Touch(n, s, hs[0]);
      TouchKeepsGood(n, s, hs[0]);
      if hs[0] in s.held { MoveToEndFacts(s.held, hs[0]); }
      if o.Kept? { OnlyTouched(n, o.store, hs[1..]); }
    }
  }

  ghost predicate AlwaysFound(n: nat, b: nat) {
    forall s, hs :: Good(n, s) && Distinct(hs) && |hs| == b ==>
      TouchAll(n, s, hs).Kept? && Lookup(TouchAll(n, s, hs).store.held, hs) == b
  }

  /** N - w - 79 is exactly the largest number of blocks whose save is always found again. */
  lemma SafeBoundExact(n: nat, b: nat)
    requires n >= 100
    ensures AlwaysFound(n, b) <==> b <= SafeBlocks(n)
  {
    if b <= SafeBlocks(n) {
      forall s, hs | Good(n, s) && Distinct(hs) && |hs| == b
        ensures TouchAll(n, s, hs).Kept? && Lookup(TouchAll(n, s, hs).store.held, hs) == b
      {
        DistinctCard(hs);
        SaveThenLookup(n, s, hs);
      }
    } else {
      var others, hs := seq(80, i => -1 - i), seq(b, i => i + 1);
      LostSave(n, others, hs);
      assert b > 0 && |hs| == b;
    }
  }
}
