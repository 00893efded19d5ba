/** The mutable lazy prefix table, the hot-prefix window and their controller. */
module LazyTable {
  import opened Common
  import opened PrefixTable

  /** An OrderedDict with a capacity; `order` is oldest first. */
  class LRUCapBucket {
    const capacity: nat
    var order: seq<int>
    var data: map<int, int>

    ghost predicate Valid()
      reads this
    {
      && |order| <= capacity
      && (forall i, j :: 0 <= i < j < |order| ==> order[i] != order[j])
      && (forall h :: h in order <==> h in data)
    }

    constructor (capacity: nat)
      ensures Valid() && this.capacity == capacity && data == map[] && order == []
    {
      this.capacity := capacity;
      order, data := [], map[];
    }

    lemma Size()
      requires Valid()
      ensures |order| == |data.Keys|
    {
      OrderSize(order, data.Keys);
    }

    /** What a put finds oldest is the entry put exactly when the bucket was empty. */
    lemma LastOut(h: int)
      requires Valid()
      ensures h !in data ==> (Newest(order, h)[0] == h <==> order == [])
      ensures capacity == 0 ==> h !in data
    {
      OthersFacts(order, h);
      if h !in data && order != [] { assert Newest(order, h)[0] == order[0] && order[0] in order; }
    }

    function Rest(h: int): (s: seq<int>)
      reads this
    {
      Others(order, h)
    }

    method Get(h: int) returns (r: Option<int>)
      requires Valid()
      modifies this
      ensures Valid() && data == old(data)
      ensures r == if h in data then Some(data[h]) else None
      ensures order == if h in data then Newest(old(order), h) else old(order)
    {
      if h !in data { return None; }
      OthersFacts(order, h);
      order := Rest(h) + [h];
      r := Some(data[h]);
    }

    /** The oldest entry goes when there are too many, which can be the one just put. */
    method Put(h: int, v: int) returns (ghost lost: set<int>)
      requires Valid()
      modifies this
      ensures Valid() && data == old(data)[h := v] - lost
      ensures lost == {} ==> order == Newest(old(order), h)
      ensures lost == {} <==> h in old(data) || |old(order)| < capacity
      ensures lost != {} ==>
        && h !in old(data) && |old(order)| == capacity
        && lost == {Newest(old(order), h)[0]} && order == Newest(old(order), h)[1..]
    {
      OthersFacts(order, h);
      lost := {};
      order := Rest(h) + [h];
      data := data[h := v];
      assert forall x :: x in order <==> x in data;
      if |order| > capacity {
        var oldest := order[0];
        assert order == [oldest] + order[1..] && oldest !in order[1..];
        lost := {oldest};
        data := data - {oldest};
        order := order[1..];
      }
    }

    method Delete(h: int)
      requires Valid()
      modifies this
      ensures Valid() && data == old(data) - {h} && order == Others(old(order), h)
    {
      OthersFacts(order, h);
      if h in data {
        data := data - {h};
        order := Rest(h);
      }
    }
  }

  /** s without h. */
  function Others(s: seq<int>, h: int): seq<int> {
    if s == [] then [] else (if s[0] == h then [] else [s[0]]) + Others(s[1..], h)
  }

  lemma {:induction false} OthersFacts(s: seq<int>, h: int)
    requires forall i, j :: 0 <= i < j < |s| ==> s[i] != s[j]
    ensures var r := Others(s, h);
            && (forall i, j :: 0 <= i < j < |r| ==> r[i] != r[j])
            && (forall x :: x in r <==> x in s && x != h)
            && |r| == |s| - (if h in s then 1 else 0)
            && (h !in s ==> r == s)
  {
    if s != [] {
      assert s == [s[0]] + s[1..];
      assert s[0] !in s[1..];
      OthersFacts(s[1..], h);
    }
  }

  /** The order after a use of h: h is newest. */
  function Newest(s: seq<int>, h: int): (r: seq<int>)
    ensures |r| > 0
  {
    Others(s, h) + [h]
  }

  ghost predicate Before(s: seq<int>, x: int, y: int) { exists i, j :: 0 <= i < j < |s| && s[i] == x && s[j] == y }

  lemma {:induction false} OthersBefore(s: seq<int>, h: int, x: int, y: int)
    requires x != h && y != h
    ensures Before(Others(s, h), x, y) <==> Before(s, x, y)
  {
    if s != [] {
      var t, o := s[1..], Others(s[1..], h);
      OthersBefore(t, h, x, y);
      OthersHas(t, h, y);
      BeforeCons(s[0], t, x, y);
      assert s == [s[0]] + t;
      if s[0] != h {
        assert Others(s, h) == [s[0]] + o;
        BeforeCons(s[0], o, x, y);
      } else {
        assert Others(s, h) == o;
      }
    }
  }

  lemma BeforeCons(a: int, s: seq<int>, x: int, y: int)
    ensures Before([a] + s, x, y) <==> Before(s, x, y) || (a == x && y in s)
  {
    var t := [a] + s;
    if Before(t, x, y) {
      var i, j :| 0 <= i < j < |t| && t[i] == x && t[j] == y;
      if i > 0 { assert s[i - 1] == x && s[j - 1] == y; } else { assert s[j - 1] == y; }
    }
    if Before(s, x, y) {
      var i, j :| 0 <= i < j < |s| && s[i] == x && s[j] == y;
      assert t[i + 1] == x && t[j + 1] == y;
    }
    if a == x && y in s {
      var j :| 0 <= j < |s| && s[j] == y;
      assert t[0] == x && t[j + 1] == y;
    }
  }

  lemma {:induction false} OthersHas(s: seq<int>, h: int, y: int)
    ensures y in Others(s, h) <==> y in s && y != h
  {
    if s != [] { OthersHas(s[1..], h, y); }
  }

  /** The order is that of the latest uses: a use of h puts h behind every other entry and
      leaves the others in order. So what Put drops is the least recently used entry. */
  lemma RecencyOrder(s: seq<int>, h: int, x: int, y: int)
    requires x != h && y != h
    ensures Before(Newest(s, h), x, y) <==> Before(s, x, y)
    ensures Before(Newest(s, h), x, h) <==> x in s
    ensures !Before(Newest(s, h), h, y)
  {
    var o, n := Others(s, h), Newest(s, h);
    OthersBefore(s, h, x, y);
    OthersHas(s, h, x);
    OthersHas(s, h, h);
    if Before(n, x, y) {
      var i, j :| 0 <= i < j < |n| && n[i] == x && n[j] == y;
      assert o[i] == x && o[j] == y;
    }
    if Before(o, x, y) {
      var i, j :| 0 <= i < j < |o| && o[i] == x && o[j] == y;
      assert n[i] == x && n[j] == y;
    }
    if Before(n, x, h) {
      var i, j :| 0 <= i < j < |n| && n[i] == x && n[j] == h;
      assert o[i] == x;
    }
    if x in s {
      var i :| 0 <= i < |o| && o[i] == x;
      assert n[i] == x && n[|o|] == h;
    }
    assert forall i :: 0 <= i < |o| ==> n[i] == o[i];
  }

  lemma {:induction false} OrderSize(order: seq<int>, keys: set<int>)
    requires forall i, j :: 0 <= i < j < |order| ==> order[i] != order[j]
    requires forall h :: h in order <==> h in keys
    ensures |order| == |keys|
  {
    if order == [] {
      forall h ensures h !in keys { assert h !in order; }
      assert keys == {};
    } else {
      assert order == [order[0]] + order[1..] && order[0] !in order[1..];
      OrderSize(order[1..], keys - {order[0]});
    }
  }

  class LazyPrefixTable {
    const capPerLevel: nat
    var levelBuckets: map<nat, LRUCapBucket>
    var stats: map<nat, int>

    ghost predicate Valid()
      reads this, levelBuckets.Values
    {
      && (forall d :: d in levelBuckets ==> levelBuckets[d].Valid() && levelBuckets[d].capacity == capPerLevel)
      && (forall d, e :: d in levelBuckets && e in levelBuckets && d != e ==> levelBuckets[d] != levelBuckets[e])
      && levelBuckets.Keys <= stats.Keys
      && OneDeeper(Contents())
    }

    ghost function Contents(): Table
      reads this, levelBuckets.Values
    {
      map d | d in levelBuckets :: levelBuckets[d].data
    }

    constructor (capPerLevel: nat)
      ensures Valid() && this.capPerLevel == capPerLevel && Contents() == map[]
    {
      this.capPerLevel := capPerLevel;
      levelBuckets, stats := map[], map[];
    }

    /** The bucket of a depth, made on first use. */
    method GetBucket(d: nat) returns (b: LRUCapBucket)
      requires Valid()
      modifies this
      ensures Valid() && d in levelBuckets && levelBuckets[d] == b
      ensures SameEntries(old(Contents()), Contents())
      ensures forall e :: e in old(levelBuckets) ==> e in levelBuckets && levelBuckets[e] == old(levelBuckets)[e]
      ensures forall e :: e in levelBuckets ==> e in old(levelBuckets) || fresh(levelBuckets[e])
    {
      if d !in levelBuckets {
        var bucket := new LRUCapBucket(capPerLevel);
        levelBuckets := levelBuckets[d := bucket];
        stats := stats[d := 0];
        assert Contents() == old(Contents())[d := map[]];
      }
      b := levelBuckets[d];
    }

    /** `_get_bucket(d).get(h)` */
    method Probe(d: nat, h: int) returns (decision: Option<int>)
      requires Valid()
      modifies this, levelBuckets.Values
      ensures Valid() && SameEntries(old(Contents()), Contents())
      ensures decision == if Has(old(Contents()), d, h) then Some(d + 1) else None
      ensures forall e :: e in levelBuckets ==>
              (e in old(levelBuckets) && levelBuckets[e] == old(levelBuckets)[e]) || fresh(levelBuckets[e])
    {
      var bucket := GetBucket(d);
      ghost var t := Contents();
      assert t[d] == bucket.data;
      decision := bucket.Get(h);
      stats := stats[d := stats[d] + 1];
      assert Contents() == t;
    }

    /** How many leading blocks form the routing key. Only recency and empty buckets change. */
    method Lookup(blocks: seq<Block>) returns (depth: nat)
      requires Valid()
      modifies this, levelBuckets.Values
      ensures Valid() && SameEntries(old(Contents()), Contents())
      ensures depth == Depth(old(Contents()), blocks)
      ensures forall e :: e in levelBuckets ==>
              (e in old(levelBuckets) && levelBuckets[e] == old(levelBuckets)[e]) || fresh(levelBuckets[e])
    {
      hide Valid, Contents, Walk, SameEntries;
      ghost var t := Contents();
      SameSelf(t);
      depth := 1;
      while depth <= |blocks|
        invariant Valid() && SameEntries(t, Contents()) && 1 <= depth <= |blocks| + 1
        invariant Walk(t, blocks, depth) == Walk(t, blocks, 1)
        invariant forall e :: e in levelBuckets ==>
                  (e in old(levelBuckets) && levelBuckets[e] == old(levelBuckets)[e]) || fresh(levelBuckets[e])
        decreases |blocks| + 1 - depth
      {
        var h := RollingHash(blocks[..depth]);
        ghost var u := Contents();
        var decision := Probe(depth, h);
        SameTransitive(t, u, Contents());
        WalkOn(t, u, blocks, depth);
        if decision == None { return; }
        depth := decision.value;
      }
      depth := |blocks|;
    }

    method MarkExpand(blocks: seq<Block>, newDepth: nat) returns (ghost lost: set<int>)
      requires Valid() && 1 <= newDepth <= |blocks| + 1
      modifies this, levelBuckets.Values
      ensures Valid() && Stored(old(Contents()), Contents(), newDepth - 1, RollingHash(blocks[..newDepth - 1]), lost)
      ensures lost != {} ==> FullAt(old(Contents()), newDepth - 1, capPerLevel)
      ensures LosesOne(old(Contents()), newDepth - 1, RollingHash(blocks[..newDepth - 1]), lost, capPerLevel)
      ensures forall e :: e in levelBuckets ==>
              (e in old(levelBuckets) && levelBuckets[e] == old(levelBuckets)[e]) || fresh(levelBuckets[e])
    {
      hide Valid, Contents, SameEntries, Stored, FullAt, RollingHash, LosesOne;
      var h, d := RollingHash(blocks[..newDepth - 1]), newDepth - 1;
      var bucket := GetBucket(d);
      ghost var t := Contents();
      FullSame(old(Contents()), t, d, capPerLevel);
      lost := PutDecision(bucket, d, h);
      StoredPut(t, d, h, lost);
      StoredSame(old(Contents()), t, Contents(), d, h, lost);
      LosesSame(old(Contents()), t, d, h, lost, capPerLevel);
    }

    /** A put loses nothing, or one entry for a new one: the new one itself only where nothing fits. */
    static ghost predicate LosesOne(t: Table, d: nat, h: int, lost: set<int>, capacity: nat) {
      && (forall x, y :: x in lost && y in lost ==> x == y)
      && (lost != {} ==> !Has(t, d, h))
      && (h in lost <==> capacity == 0)
    }

    static lemma LosesHow(t: Table, d: nat, h: int, lost: set<int>, capacity: nat)
      requires LosesOne(t, d, h, lost, capacity)
      ensures forall x, y :: x in lost && y in lost ==> x == y
      ensures (lost != {} ==> !Has(t, d, h)) && (h in lost <==> capacity == 0)
    {
    }

    lemma NothingFits()
      requires Valid()
      ensures capPerLevel == 0 ==> forall d, x :: !Has(Contents(), d, x)
    {
      if capPerLevel == 0 {
        forall d, x ensures !Has(Contents(), d, x) {
          if d in levelBuckets {
            var b := levelBuckets[d];
            assert b.Valid() && |b.order| == 0;
            assert x !in b.order;
          }
        }
      }
    }

    static lemma LosesSame(t: Table, u: Table, d: nat, h: int, lost: set<int>, capacity: nat)
      requires SameEntries(t, u) && LosesOne(u, d, h, lost, capacity)
      ensures LosesOne(t, d, h, lost, capacity)
    {
      assert Has(t, d, h) <==> Has(u, d, h);
    }

    method PutDecision(bucket: LRUCapBucket, d: nat, h: int) returns (ghost lost: set<int>)
      requires Valid() && d in levelBuckets && levelBuckets[d] == bucket
      modifies bucket
      ensures Valid() && d in old(Contents())
      ensures Contents() == old(Contents())[d := old(Contents())[d][h := d + 1] - lost]
      ensures lost != {} ==> FullAt(old(Contents()), d, capPerLevel)
      ensures LosesOne(old(Contents()), d, h, lost, capPerLevel)
    {
      hide OneDeeper, LRUCapBucket.Valid;
      ghost var t := Contents();
      bucket.Size();
      bucket.LastOut(h);
      IsFull(t, d, capPerLevel);
      lost := bucket.Put(h, d + 1);
      StoredPut(t, d, h, lost);
      assert Contents() == t[d := t[d][h := d + 1] - lost];
    }

    method MarkShrink(blocks: seq<Block>, oldDepth: nat)
      requires Valid() && oldDepth <= |blocks|
      modifies this, levelBuckets.Values
      ensures Valid() && Erased(old(Contents()), Contents(), oldDepth, RollingHash(blocks[..oldDepth]))
    {
      hide SameEntries, Erased, OneDeeper, RollingHash, LRUCapBucket.Valid;
      var h := RollingHash(blocks[..oldDepth]);
      var bucket := GetBucket(oldDepth);
      ghost var t := Contents();
      assert t[oldDepth] == bucket.data;
      bucket.Delete(h);
      ErasedDelete(t, oldDepth, h);
      assert Contents() == t[oldDepth := t[oldDepth] - {h}];
      StoredSame(old(Contents()), t, Contents(), oldDepth, h, {});
    }

    static lemma IsFull(t: Table, d: nat, capacity: nat)
      requires d in t
      ensures FullAt(t, d, capacity) <==> |t[d].Keys| >= capacity
    {
    }

    static lemma SameSelf(t: Table)
      ensures SameEntries(t, t)
    {
    }

    static lemma SameTransitive(t: Table, u: Table, v: Table)
      requires SameEntries(t, u) && SameEntries(u, v)
      ensures SameEntries(t, v)
    {
      forall d, h ensures (Has(t, d, h) <==> Has(v, d, h)) && (Has(t, d, h) ==> t[d][h] == v[d][h]) {
        assert Has(t, d, h) <==> Has(u, d, h);
      }
    }

    static lemma WalkOn(t: Table, u: Table, blocks: seq<Block>, d: nat)
      requires SameEntries(t, u) && d <= |blocks|
      ensures Walk(t, blocks, d) == if Has(u, d, RollingHash(blocks[..d])) then Walk(t, blocks, d + 1) else d
    {
      assert Has(t, d, RollingHash(blocks[..d])) <==> Has(u, d, RollingHash(blocks[..d]));
    }
  }

  class HotPrefixDetector {
    const windowSize: nat
    const hotRatio: real
    const minSamples: int
    var window: seq<Key>
    var counts: map<Key, int>

    ghost predicate Valid()
      reads this
    {
      Tally(counts, window) && |window| <= windowSize
    }

    constructor (windowSize: nat, hotRatio: real, minSamples: int)
      ensures Valid() && this.windowSize == windowSize && this.hotRatio == hotRatio && this.minSamples == minSamples
    {
      this.windowSize, this.hotRatio, this.minSamples := windowSize, hotRatio, minSamples;
      window, counts := [], map[];
    }

    /** The window keeps the latest observations; the counts are those of the window. */
    method Observe(prefix: Key) returns (hot: bool, ratio: real)
      requires Valid()
      modifies this
      ensures Valid()
      ensures window == if |old(window)| < windowSize then old(window) + [prefix] else (old(window) + [prefix])[1..]
      ensures |window| < minSamples ==> ratio == 0.0 && !hot
      ensures |window| >= minSamples ==>
                ratio == (if |window| > 20 then Occurs(window, prefix) as real / |window| as real else 0.0)
      ensures |window| >= minSamples ==> (hot <==> ratio >= hotRatio)
    {
      hide Tally;
      TallyAdd(counts, window, prefix);
      window := window + [prefix];
      counts := counts[prefix := (if prefix in counts then counts[prefix] else 0) + 1];
      if |window| > windowSize {
        TallyDrop(counts, window);
        var old_ := window[0];
        window := window[1..];
        counts := counts[old_ := counts[old_] - 1];
        if counts[old_] <= 0 { counts := counts - {old_}; }
      }
      var total := |window|;
      if total < minSamples { return false, 0.0; }
      var cnt := if prefix in counts then counts[prefix] else 0;
      assert cnt == Occurs(window, prefix) by { TallyAt(counts, window, prefix); }
      ratio := if total > 20 then cnt as real / total as real else 0.0;
      hot := ratio >= hotRatio;
    }

    static lemma TallyAt(counts: map<Key, int>, window: seq<Key>, p: Key)
      requires Tally(counts, window)
      ensures Occurs(window, p) == if p in counts then counts[p] else 0
    {
    }
  }

  class LazyExpansionController {
    const table: LazyPrefixTable
    const detector: HotPrefixDetector

    constructor (table: LazyPrefixTable, detector: HotPrefixDetector)
      ensures this.table == table && this.detector == detector
    {
      this.table, this.detector := table, detector;
    }

    /** Expands a hot routing key by one block and shrinks it when its parent prefix is cold. The
        key is hot when its share of the window reaches the ratio, the parent, observed after it,
        is cold below 2%. */
    method Process(blocks: seq<Block>)
      requires table.Valid() && detector.Valid()
      modifies table, table.levelBuckets.Values, detector
      ensures table.Valid() && detector.Valid()
      ensures Processed(old(table.Contents()), table.Contents(), blocks, table.capPerLevel)
      ensures var d := Depth(old(table.Contents()), blocks);
              && d <= |blocks|
              && var seen := Slid(old(detector.window), detector.windowSize, blocks[..d]);
                 var after := if d > 1 then Slid(seen, detector.windowSize, blocks[..d - 1]) else seen;
                 var share := Share(seen, detector.minSamples, blocks[..d]);
                 var hot := |seen| >= detector.minSamples && share >= detector.hotRatio;
                 var cold := d > 1 && Share(after, detector.minSamples, blocks[..d - 1]) < 0.02;
                 && detector.window == after
                 && ProcessedBy(old(table.Contents()), table.Contents(), blocks, table.capPerLevel,
                                hot && d < |blocks|, cold)
    {
      hide Processed, ProcessedBy, SameEntries, Stored, Erased, Depth, RunsOff, FullAt, Occurs;
      hide LazyPrefixTable.Valid, LazyPrefixTable.Contents, HotPrefixDetector.Valid, LazyPrefixTable.LosesOne;
      ghost var t := table.Contents();
      table.NothingFits();
      var depth := table.Lookup(blocks);
      DepthBounds(t, blocks);
      ghost var t1 := table.Contents();
      var isHot, ratio := detector.Observe(blocks[..depth]);
      var expand := isHot && depth < |blocks|;
      ghost var lost: set<int> := {};
      if expand {
        lost := table.MarkExpand(blocks, depth + 1);
      }
      ghost var t2 := table.Contents();
      var shrink := false;
      if depth > 1 {
        var parentHot, parentRatio := detector.Observe(blocks[..depth - 1]);
        if parentRatio < 0.02 {
          shrink := true;
          table.MarkShrink(blocks, depth);
        }
      }
      ProcessEffect(t, t1, t2, table.Contents(), blocks, lost, table.capPerLevel, expand, shrink);
      if expand { LazyPrefixTable.LosesHow(t1, depth, RollingHash(blocks[..depth]), lost, table.capPerLevel); }
      ProcessExactly(t, t1, t2, table.Contents(), blocks, lost, table.capPerLevel, expand, shrink);
    }
  }
}
