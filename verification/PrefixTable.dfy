/** The lazy prefix table on values: which leading blocks of a prompt form its routing key. */
module PrefixTable {
  type Block = int
  /** Per depth, the decisions by prefix hash. */
  type Table = map<nat, map<int, int>>

  const HASH_BASE: int := 1315423911
  const HASH_SPAN: int := 0x1_0000_0000_0000_0000

  /** `rolling_hash`; `& 0xFFFFFFFFFFFFFFFF` is the residue modulo 2^64. */
  function RollingHash(blocks: seq<Block>): int {
    if blocks == [] then 0
    else (RollingHash(blocks[..|blocks| - 1]) * HASH_BASE + blocks[|blocks| - 1]) % HASH_SPAN
  }

  function Power(b: int, n: nat): int { if n == 0 then 1 else b * Power(b, n - 1) }

  /** The blocks as digits, the first one the highest. */
  function Digits(blocks: seq<Block>): int {
    if blocks == [] then 0 else blocks[0] * Power(HASH_BASE, |blocks| - 1) + Digits(blocks[1..])
  }

  lemma {:induction false} DigitsAppend(blocks: seq<Block>, b: Block)
    ensures Digits(blocks + [b]) == Digits(blocks) * HASH_BASE + b
  {
    if blocks == [] {
      assert [b][1..] == [] && Power(HASH_BASE, 0) == 1;
    } else {
      var t := blocks + [b];
      assert t[1..] == blocks[1..] + [b];
      DigitsAppend(blocks[1..], b);
      var p := Power(HASH_BASE, |blocks| - 1);
      assert Power(HASH_BASE, |blocks|) == HASH_BASE * p;
      assert blocks[0] * (HASH_BASE * p) == (blocks[0] * p) * HASH_BASE;
    }
  }

  lemma ResidueStep(x: int, y: int, b: int)
    requires x % HASH_SPAN == y
    ensures (x * HASH_BASE + b) % HASH_SPAN == (y * HASH_BASE + b) % HASH_SPAN
  {
    var q := x / HASH_SPAN;
    assert x == q * HASH_SPAN + y;
    SameResidue(q * HASH_BASE, y * HASH_BASE + b);
    assert x * HASH_BASE + b == (q * HASH_BASE) * HASH_SPAN + (y * HASH_BASE + b);
  }

  lemma SameResidue(q: int, r: int)
    ensures (q * HASH_SPAN + r) % HASH_SPAN == r % HASH_SPAN
  {
    var d := r / HASH_SPAN;
    assert q * HASH_SPAN + r == (q + d) * HASH_SPAN + r % HASH_SPAN;
    Residue(q * HASH_SPAN + r, q + d, r % HASH_SPAN);
  }

  lemma Residue(x: int, k: int, r: int)
    requires x == k * HASH_SPAN + r && 0 <= r < HASH_SPAN
    ensures x % HASH_SPAN == r
  {
  }

  /** The rolling hash is the residue of the blocks read as digits, overflow or not. */
  lemma {:induction false} RollingHashIs(blocks: seq<Block>)
    ensures RollingHash(blocks) == Digits(blocks) % HASH_SPAN
  {
    if blocks != [] {
      var rest, b := blocks[..|blocks| - 1], blocks[|blocks| - 1];
      RollingHashIs(rest);
      assert blocks == rest + [b];
      DigitsAppend(rest, b);
      ResidueStep(Digits(rest), RollingHash(rest), b);
    }
  }

  predicate Decided(t: Table, blocks: seq<Block>, d: nat)
    requires d <= |blocks|
  {
    d in t && RollingHash(blocks[..d]) in t[d]
  }

  /** Every decision stored at depth d is to look one block further. */
  ghost predicate OneDeeper(t: Table) { forall d, h :: d in t && h in t[d] ==> t[d][h] == d + 1 }

  /** The walk of `lookup` from depth d: Some(d) when it stops at a missing entry, None when it
      runs off the end. */
  function Walk(t: Table, blocks: seq<Block>, d: nat): (r: nat)
    requires d <= |blocks| + 1
    ensures d <= r <= |blocks| + 1
    ensures r <= |blocks| ==> !Decided(t, blocks, r)
    ensures forall k :: d <= k < r && k <= |blocks| ==> Decided(t, blocks, k)
    decreases |blocks| + 1 - d
  {
    if d > |blocks| || !Decided(t, blocks, d) then d else Walk(t, blocks, d + 1)
  }

  /** Every depth of the prompt has an entry. */
  predicate RunsOff(t: Table, blocks: seq<Block>) { Walk(t, blocks, 1) > |blocks| }

  /** `lookup` */
  function Depth(t: Table, blocks: seq<Block>): nat {
    if RunsOff(t, blocks) then |blocks| else Walk(t, blocks, 1)
  }

  /** The routing key. */
  function Cut(t: Table, blocks: seq<Block>): seq<Block> {
    blocks[..Depth(t, blocks)]
  }

  lemma DecidedPrefix(t: Table, p: seq<Block>, q: seq<Block>, d: nat)
    requires d <= |p| && d <= |q| && p[..d] == q[..d]
    ensures Decided(t, p, d) <==> Decided(t, q, d)
  {
  }

  lemma DepthBounds(t: Table, blocks: seq<Block>)
    ensures Depth(t, blocks) <= |blocks| && (blocks == [] ==> Depth(t, blocks) == 0)
    ensures blocks != [] ==> 1 <= Depth(t, blocks) <= |blocks|
    ensures forall k :: 1 <= k < Depth(t, blocks) ==> Decided(t, blocks, k)
    ensures blocks != [] ==> (RunsOff(t, blocks) <==> Decided(t, blocks, Depth(t, blocks)))
  {
  }

  /** Prompts that share the blocks of a stopped lookup share its routing key. */
  lemma RoutesTogether(t: Table, p: seq<Block>, q: seq<Block>)
    requires !RunsOff(t, p) && Cut(t, p) <= q
    ensures Cut(t, q) == Cut(t, p)
  {
    hide Walk, RunsOff, Depth;
    DepthBounds(t, p);
    DepthBounds(t, q);
    var d, e := Depth(t, p), Depth(t, q);
    assert p != [] by { EmptyRunsOff(t, p); }
    assert forall k :: 0 <= k <= d ==> p[..k] == q[..k];
    DecidedPrefix(t, p, q, d);
    if e < d {
      DecidedPrefix(t, p, q, e);
      LastDecided(t, q);
    }
  }

  lemma EmptyRunsOff(t: Table, p: seq<Block>)
    ensures p == [] ==> RunsOff(t, p)
  {
  }

  /** A lookup that ends early stops at a missing entry. */
  lemma LastDecided(t: Table, q: seq<Block>)
    requires 0 < Depth(t, q) < |q|
    ensures !Decided(t, q, Depth(t, q))
  {
  }

  /** Routing keys are prefix-free but for prompts that run off the end: one key is a proper
      prefix of another exactly when its prompt has an entry at every depth and is itself a
      proper prefix of the other prompt. Nothing is assumed of the hash. */
  lemma KeyOrder(t: Table, p: seq<Block>, q: seq<Block>)
    ensures Cut(t, p) < Cut(t, q) <==> p < q && RunsOff(t, p)
  {
    hide Walk;
    if Cut(t, p) < Cut(t, q) && !RunsOff(t, p) {
      RoutesTogether(t, p, q);
    }
    if Cut(t, p) < Cut(t, q) {
      assert RunsOff(t, p);
      assert Cut(t, p) == p;
    }
    if p < q && RunsOff(t, p) {
      if !RunsOff(t, q) && Cut(t, q) <= p {
        RoutesTogether(t, q, p);
        EmptyRunsOff(t, q);
        DepthBounds(t, p);
        DepthBounds(t, q);
        DecidedPrefix(t, p, q, Depth(t, q));
      }
    }
  }

  /** Two lookups that stop at a missing entry have equal keys or keys of which neither is a
      prefix of the other. */
  lemma StoppedKeys(t: Table, p: seq<Block>, q: seq<Block>)
    requires !RunsOff(t, p) && !RunsOff(t, q)
    ensures Cut(t, p) == Cut(t, q) || (!(Cut(t, p) <= Cut(t, q)) && !(Cut(t, q) <= Cut(t, p)))
  {
    KeyOrder(t, p, q);
    KeyOrder(t, q, p);
  }

  /** Keys are not prefix-free in general: a prompt that runs off the end is cut to itself. */
  lemma OffEndPrefix()
    ensures exists t, p, q :: OneDeeper(t) && p != [] && Cut(t, p) < Cut(t, q)
  {
    var p, q: seq<Block> := [5], [5, 6];
    var h := RollingHash(p);
    var t: Table := map[1 := map[h := 2]];
    assert p[..1] == p;
    assert Decided(t, p, 1);
    assert Walk(t, p, 1) == Walk(t, p, 2) == 2;
    KeyOrder(t, p, q);
    assert OneDeeper(t) && p != [] && Cut(t, p) < Cut(t, q);
  }

  // ---------------------------------------------------------------- changes

  predicate Has(t: Table, d: nat, h: int) { d in t && h in t[d] }

  /** The same decisions; buckets without any may come and go. */
  ghost predicate SameEntries(t: Table, u: Table) {
    forall d, h :: (Has(t, d, h) <==> Has(u, d, h)) && (Has(t, d, h) ==> t[d][h] == u[d][h])
  }

  /** The bucket of depth d holds as many entries as it may. */
  predicate FullAt(t: Table, d: nat, capacity: nat) { (if d in t then |t[d]| else 0) >= capacity }

  lemma FullSame(t: Table, u: Table, d: nat, capacity: nat)
    requires SameEntries(t, u)
    ensures FullAt(t, d, capacity) <==> FullAt(u, d, capacity)
  {
    forall h ensures Has(t, d, h) <==> Has(u, d, h) {}
    if d in t && d in u {
      forall h ensures h in t[d] <==> h in u[d] { assert Has(t, d, h) <==> Has(u, d, h); }
      forall h | h in t[d] ensures t[d][h] == u[d][h] { assert Has(t, d, h); }
      assert t[d] == u[d];
    } else if d in t {
      NoEntries(t, d);
    } else if d in u {
      NoEntries(u, d);
    }
  }

  lemma NoEntries(t: Table, d: nat)
    requires d in t && forall h :: !Has(t, d, h)
    ensures t[d] == map[]
  {
    forall h ensures h !in t[d] { assert !Has(t, d, h); }
  }

  /** One `process` call: a lookup, perhaps an expansion, perhaps a shrink at the same depth. */
  lemma ProcessEffect(t: Table, t1: Table, t2: Table, u: Table, blocks: seq<Block>, lost: set<int>, capacity: nat,
                      expand: bool, shrink: bool)
    requires SameEntries(t, t1) && Depth(t, blocks) <= |blocks|
    requires expand ==>
               && Depth(t, blocks) < |blocks|
               && Stored(t1, t2, Depth(t, blocks), RollingHash(blocks[..Depth(t, blocks)]), lost)
    requires expand && lost != {} ==> FullAt(t1, Depth(t, blocks), capacity)
    requires !expand ==> t2 == t1
    requires shrink ==> Depth(t, blocks) > 0 && Erased(t2, u, Depth(t, blocks), RollingHash(blocks[..Depth(t, blocks)]))
    requires !shrink ==> u == t2
    ensures Processed(t, u, blocks, capacity)
  {
    hide FullAt, Depth, RollingHash;
    var d := Depth(t, blocks);
    var h := RollingHash(blocks[..d]);
    DepthBounds(t, blocks);
    FullSame(t, t1, d, capacity);
    forall e, x
      ensures Has(u, e, x) && !Has(t, e, x) ==> e == d < |blocks| && x == h
      ensures Has(t, e, x) && !Has(u, e, x) ==> e == d && ((RunsOff(t, blocks) && x == h) || FullAt(t, d, capacity))
    {
      assert Has(t, e, x) <==> Has(t1, e, x);
      if Has(t, e, x) && !Has(u, e, x) && e == d && x == h && lost == {} {
        assert Decided(t, blocks, d);
      }
    }
  }

  /** What one `process` call may do to the decisions: the only one it can add is the one at the
      looked-up depth, and it takes an earlier one away only at that depth, to make room in a
      full bucket or because the lookup ran off the end of the prompt. */
  ghost predicate Processed(t: Table, u: Table, blocks: seq<Block>, capacity: nat) {
    var d := Depth(t, blocks);
    var h := RollingHash(blocks[..d]);
    && (forall e, x :: Has(u, e, x) && !Has(t, e, x) ==> e == d < |blocks| && x == h)
    && (forall e, x :: Has(t, e, x) && !Has(u, e, x) ==>
          e == d && ((RunsOff(t, blocks) && x == h) || FullAt(t, d, capacity)))
  }

  /** What one call has done, when it expands and when it shrinks: the decision at the looked-up
      depth is there exactly when it was or is put, and is not deleted; no other decision is
      new, and of the others at most one goes, to make room for a new one in a full bucket. */
  ghost predicate ProcessedBy(t: Table, u: Table, blocks: seq<Block>, capacity: nat, expand: bool, shrink: bool) {
    var d := Depth(t, blocks);
    var h := RollingHash(blocks[..d]);
    && (Has(u, d, h) <==> (Has(t, d, h) || (expand && capacity > 0)) && !shrink)
    && (forall e, x :: Has(u, e, x) && !(e == d && x == h) ==> Has(t, e, x))
    && (forall e, x :: Has(t, e, x) && !Has(u, e, x) && !(e == d && x == h) ==>
          e == d && expand && !Has(t, d, h) && FullAt(t, d, capacity))
    && (forall x, y :: Has(t, d, x) && !Has(u, d, x) && Has(t, d, y) && !Has(u, d, y) && x != h && y != h ==> x == y)
  }

  lemma ProcessExactly(t: Table, t1: Table, t2: Table, u: Table, blocks: seq<Block>, lost: set<int>, capacity: nat,
                       expand: bool, shrink: bool)
    requires SameEntries(t, t1) && Depth(t, blocks) <= |blocks|
    requires expand ==> Stored(t1, t2, Depth(t, blocks), RollingHash(blocks[..Depth(t, blocks)]), lost)
    requires expand ==> (RollingHash(blocks[..Depth(t, blocks)]) in lost ==> capacity == 0)
    requires expand && lost != {} ==>
               && FullAt(t1, Depth(t, blocks), capacity)
               && !Has(t1, Depth(t, blocks), RollingHash(blocks[..Depth(t, blocks)]))
    requires forall x, y :: x in lost && y in lost ==> x == y
    requires capacity == 0 ==> forall e, x :: !Has(t, e, x)
    requires capacity == 0 && expand ==> RollingHash(blocks[..Depth(t, blocks)]) in lost
    requires !expand ==> t2 == t1
    requires shrink ==> Erased(t2, u, Depth(t, blocks), RollingHash(blocks[..Depth(t, blocks)]))
    requires !shrink ==> u == t2
    ensures ProcessedBy(t, u, blocks, capacity, expand, shrink)
  {
    hide FullAt, Depth, RollingHash;
    var d := Depth(t, blocks);
    var h := RollingHash(blocks[..d]);
    FullSame(t, t1, d, capacity);
    forall e, x ensures Has(t, e, x) <==> Has(t1, e, x) {}
    forall e, x
      ensures !expand ==> (Has(t2, e, x) <==> Has(t, e, x))
      ensures expand ==> (Has(t2, e, x) <==> (Has(t, e, x) || (e == d && x == h)) && !(e == d && x in lost))
      ensures Has(u, e, x) <==> Has(t2, e, x) && !(shrink && e == d && x == h)
    {
    }
  }

  /** An entry put at (d, h), with some entries of that bucket lost to make room. */
  ghost predicate Stored(t: Table, u: Table, d: nat, h: int, lost: set<int>) {
    forall e, x :: Has(u, e, x) <==> (Has(t, e, x) || (e == d && x == h)) && !(e == d && x in lost)
  }

  ghost predicate Erased(t: Table, u: Table, d: nat, h: int) {
    forall e, x :: Has(u, e, x) <==> Has(t, e, x) && !(e == d && x == h)
  }

  lemma StoredPut(t: Table, d: nat, h: int, lost: set<int>)
    requires d in t
    ensures Stored(t, t[d := t[d][h := d + 1] - lost], d, h, lost)
    ensures OneDeeper(t) ==> OneDeeper(t[d := t[d][h := d + 1] - lost])
  {
  }

  lemma ErasedDelete(t: Table, d: nat, h: int)
    requires d in t
    ensures Erased(t, t[d := t[d] - {h}], d, h)
    ensures OneDeeper(t) ==> OneDeeper(t[d := t[d] - {h}])
  {
  }

  lemma StoredSame(t: Table, u: Table, v: Table, d: nat, h: int, lost: set<int>)
    requires SameEntries(t, u)
    ensures Stored(u, v, d, h, lost) ==> Stored(t, v, d, h, lost)
    ensures Erased(u, v, d, h) ==> Erased(t, v, d, h)
  {
    forall e, x ensures Has(t, e, x) <==> Has(u, e, x) {}
  }

  lemma {:induction false} WalkSame(t: Table, u: Table, blocks: seq<Block>, d: nat)
    requires SameEntries(t, u) && d <= |blocks| + 1
    ensures Walk(t, blocks, d) == Walk(u, blocks, d)
    decreases |blocks| + 1 - d
  {
    if d <= |blocks| {
      assert Has(t, d, RollingHash(blocks[..d])) <==> Has(u, d, RollingHash(blocks[..d]));
      if Decided(t, blocks, d) { WalkSame(t, u, blocks, d + 1); }
    }
  }

  // ---------------------------------------------------------------- hot prefixes

  type Key = seq<Block>

  /** The window after one more observation. */
  function Slid(window: seq<Key>, size: nat, p: Key): seq<Key> {
    if |window| < size then window + [p] else (window + [p])[1..]
  }

  /** The share of p in the window; a window of too few observations gives none. */
  function Share(window: seq<Key>, minSamples: int, p: Key): real {
    if |window| < minSamples || |window| <= 20 then 0.0 else Occurs(window, p) as real / |window| as real
  }

  function Occurs(window: seq<Key>, p: Key): nat {
    if window == [] then 0 else (if window[0] == p then 1 else 0) + Occurs(window[1..], p)
  }

  /** The counts are those of the window, with no key for what is not in it. */
  ghost predicate Tally(counts: map<Key, int>, window: seq<Key>) {
    forall p :: (p in counts <==> Occurs(window, p) > 0) && (p in counts ==> counts[p] == Occurs(window, p))
  }

  lemma {:induction false} OccursAppend(a: seq<Key>, b: seq<Key>, p: Key)
    ensures Occurs(a + b, p) == Occurs(a, p) + Occurs(b, p)
  {
    if a == [] {
      assert a + b == b;
    } else {
      OccursAppend(a[1..], b, p);
      assert (a + b)[1..] == a[1..] + b;
    }
  }

  lemma TallyAdd(counts: map<Key, int>, window: seq<Key>, x: Key)
    requires Tally(counts, window)
    ensures Tally(counts[x := (if x in counts then counts[x] else 0) + 1], window + [x])
  {
    forall p
      ensures Occurs(window + [x], p) == Occurs(window, p) + if p == x then 1 else 0
    {
      OccursAppend(window, [x], p);
    }
  }

  lemma TallyDrop(counts: map<Key, int>, window: seq<Key>)
    requires Tally(counts, window) && window != []
    ensures window[0] in counts
    ensures var c := counts[window[0] := counts[window[0]] - 1];
            Tally(if c[window[0]] <= 0 then c - {window[0]} else c, window[1..])
  {
    forall p ensures Occurs(window, p) == Occurs(window[1..], p) + if p == window[0] then 1 else 0 {}
  }
}
