/** The imperative KV-block cache: an LRU list and a block allocator that must agree. Each
    method is proved to act on the store as the functions of Recency say. */
module KvCache {
  import opened Common
  import opened Recency
  import opened HashChain

  /** An OrderedDict (`order` is its key order, oldest first) with a separate size counter. */
  class PrefixLRUCache {
    const capacity: nat
    var order: seq<Hash>
    var data: map<Hash, int>
    var size: nat

    ghost predicate Valid()
      reads this
    {
      && Distinct(order) && data.Keys == Elems(order)
      && size == |order| && size <= capacity
    }

    constructor (capacity: nat)
      ensures Valid() && order == [] && this.capacity == capacity
    {
      this.capacity := capacity;
      order, data, size := [], map[], 0;
    }

    method Query(key: Hash) returns (res: int)
      requires Valid()
      ensures res == if key in order then data[key] else -1
    {
      if key in data { res := data[key]; } else { res := -1; }
    }

    method Get(key: Hash) returns (res: int)
      requires Valid()
      modifies this
      ensures Valid() && data == old(data)
      ensures order == if key in old(order) then MoveToEnd(old(order), key) else old(order)
      ensures Elems(order) == Elems(old(order)) && forall k :: k in order ==> k in old(order)
      ensures res == if key in order then data[key] else -1
    {
      if key in data {
        res := data[key];
        MoveToEndFacts(order, key);
        order := MoveToEnd(order, key);
      } else {
        res := -1;
      }
    }

    /** A KeyError is raised, with the dictionary as before, exactly when a new key meets a
        full cache. */
    method Put(key: Hash, value: int) returns (raised: bool)
      requires Valid()
      modifies this
      ensures Valid()
      ensures raised <==> key !in old(order) && old(size) == capacity
      ensures raised ==> order == old(order) && data == old(data)
      ensures !raised ==> data == old(data)[key := value] && Elems(order) == Elems(old(order)) + {key}
      ensures !raised ==> order == if key in old(order) then MoveToEnd(old(order), key) else old(order) + [key]
    {
      if key in data {
        data := data[key := value];
        MoveToEndFacts(order, key);
        order := MoveToEnd(order, key);
      } else {
        data := data[key := value];
        order := order + [key];
        if size == capacity {
          var last := order[|order| - 1];
          data := data - {last};
          order := order[..|order| - 1];
          return true;
        }
        size := size + 1;
      }
      raised := false;
    }

    method Pop() returns (item: Option<(Hash, int)>)
      requires Valid()
      modifies this
      ensures Valid()
      ensures old(order) == [] ==> item == None && order == [] && data == old(data)
      ensures old(order) != [] ==>
                && item == Some((old(order)[0], old(data)[old(order)[0]]))
                && order == old(order)[1..] && data == old(data) - {old(order)[0]}
    {
      if size == 0 { return None; }
      size := size - 1;
      var key := order[0];
      item := Some((key, data[key]));
      data := data - {key};
      order := order[1..];
    }
  }

  /** The hashes recorded with the id -1 of an exhausted pool. */
  function Orphans(cached: map<Hash, int>): set<Hash> { set h | h in cached && cached[h] == -1 }

  /** The hashes in `keys` own blocks with distinct ids, none of them free; there are n ids
      in all. Every other recorded hash has id -1. */
  ghost predicate Agree(n: nat, cached: map<Hash, int>, keys: set<Hash>, free: set<int>) {
    && (forall h :: h in keys ==> h in cached && 0 <= cached[h] < n && cached[h] !in free)
    && (forall g, h :: g in keys && h in keys && g != h ==> cached[g] != cached[h])
    && (forall h :: h in cached ==> h in keys || cached[h] == -1)
    && (forall id :: id in free ==> 0 <= id < n)
    && |free| + |keys| == n
  }

  ghost predicate Owned(cached: map<Hash, int>, keys: set<Hash>, id: int) {
    exists h :: h in keys && h in cached && cached[h] == id
  }

  ghost function Ids(cached: map<Hash, int>, keys: set<Hash>): set<int> {
    set h | h in keys && h in cached :: cached[h]
  }

  lemma {:induction false} IdsCard(cached: map<Hash, int>, keys: set<Hash>)
    requires forall h :: h in keys ==> h in cached
    requires forall g, h :: g in keys && h in keys && g != h ==> cached[g] != cached[h]
    ensures |Ids(cached, keys)| == |keys|
    decreases |keys|
  {
    if keys != {} {
      var h := Member(keys);
      IdsCard(cached, keys - {h});
      assert Ids(cached, keys) == Ids(cached, keys - {h}) + {cached[h]};
    }
  }

  /** The free ids and the ids of held hashes partition 0..n-1: no block is ever lost. */
  lemma Partition(n: nat, cached: map<Hash, int>, keys: set<Hash>, free: set<int>, id: int)
    requires Agree(n, cached, keys, free)
    ensures 0 <= id < n <==> id in free || Owned(cached, keys, id)
    ensures !(id in free && Owned(cached, keys, id))
  {
    var used := Ids(cached, keys);
    IdsCard(cached, keys);
    assert used !! free;
    assert |used + free| == n;
    FullSubset(used + free, n);
    assert id in used <==> Owned(cached, keys, id);
  }

  lemma {:induction false} FullSubset(s: set<int>, n: nat)
    requires |s| == n && (forall i :: i in s ==> 0 <= i < n)
    ensures forall i :: 0 <= i < n ==> i in s
  {
    if n > 0 {
      if n - 1 in s {
        FullSubset(s - {n - 1}, n - 1);
      } else {
        Crowded(s, n - 1);
      }
    }
  }

  lemma {:induction false} Crowded(s: set<int>, n: nat)
    requires forall i :: i in s ==> 0 <= i < n
    ensures |s| <= n
  {
    if n > 0 {
      Crowded(s - {n - 1}, n - 1);
      assert s <= s - {n - 1} + {n - 1};
    } else {
      assert forall i :: i !in s;
    }
  }

  lemma AgreeFree(n: nat, cached: map<Hash, int>, keys: set<Hash>, free: set<int>, h: Hash)
    requires Agree(n, cached, keys, free) && h in keys
    ensures Agree(n, cached - {h}, keys - {h}, free + {cached[h]})
    ensures Orphans(cached - {h}) == Orphans(cached)
  {
  }

  lemma OrphansUpdate(cached: map<Hash, int>, h: Hash, id: int)
    requires h !in cached
    ensures Orphans(cached[h := id]) == Orphans(cached) + if id == -1 then {h} else {}
  {
  }

  lemma AgreeAllocate(n: nat, cached: map<Hash, int>, keys: set<Hash>, free: set<int>, h: Hash, id: nat)
    requires Agree(n, cached, keys, free) && h !in cached && id in free
    ensures Agree(n, cached[h := id], keys + {h}, free - {id})
  {
  }

  /** A new hash under the id the pool handed out, -1 when it had none. */
  lemma AgreeRecord(n: nat, cached: map<Hash, int>, keys: set<Hash>, free: set<int>, h: Hash, id: int)
    requires h !in cached && (id == -1 || (id >= 0 && id !in free))
    requires Agree(n, cached, keys, if id == -1 then free else free + {id})
    ensures Agree(n, cached[h := id], if id == -1 then keys else keys + {h}, free)
    ensures Orphans(cached[h := id]) == Orphans(cached) + if id == -1 then {h} else {}
  {
    OrphansUpdate(cached, h, id);
    if id == -1 {
      AgreeOrphan(n, cached, keys, free, h);
    } else {
      AgreeAllocate(n, cached, keys, free + {id}, h, id);
      assert free + {id} - {id} == free;
    }
  }

  lemma KeysRecorded(n: nat, cached: map<Hash, int>, keys: set<Hash>, free: set<int>, h: Hash)
    requires Agree(n, cached, keys, free) && h !in cached
    ensures h !in keys
  {
  }

  /** An id just taken from the free set belongs to no held hash. */
  lemma OwnersDiffer(n: nat, cached: map<Hash, int>, keys: set<Hash>, free: set<int>, h: Hash, id: int)
    requires h in keys && Agree(n, cached, keys, free) && (id == -1 || id in free)
    ensures h in cached && cached[h] != id
  {
  }

  /** There are orphans only in a full pool of fewer than 100 blocks, which is never reclaimed. */
  lemma OrphanId(n: nat, cached: map<Hash, int>, held: seq<Hash>, h: Hash)
    requires h in Orphans(cached) && |held| <= n
    ensures Orphans(cached) != {} && cached[h] == -1 && (n < 100 ==> Reclaim(n, held) == held)
  {
  }

  lemma RecordedHow(n: nat, cached: map<Hash, int>, keys: set<Hash>, free: set<int>, h: Hash)
    requires Agree(n, cached, keys, free)
    ensures h in cached <==> h in keys || h in Orphans(cached)
    ensures h in Orphans(cached) ==> h !in keys && cached[h] == -1
    ensures -1 !in free
  {
  }

  lemma AgreeOrphan(n: nat, cached: map<Hash, int>, keys: set<Hash>, free: set<int>, h: Hash)
    requires Agree(n, cached, keys, free) && h !in cached
    ensures Agree(n, cached[h := -1], keys, free)
  {
  }

  /** set(range(n)) */
  function Range(n: nat): (s: set<int>)
    ensures forall i :: i in s <==> 0 <= i < n
    ensures |s| == n
  {
    if n == 0 then {} else Range(n - 1) + {n - 1}
  }

  class PrefixKVCacheMgr {
    const numBlocks: nat
    const blockSize: nat
    const minWatermark: nat
    const hash: Hasher
    const lru: PrefixLRUCache
    var free: set<int>
    var cached: map<Hash, int>

    ghost var issued: nat  // block ids handed out so far
    ghost var batches: nat // reclaims so far

    ghost function Contents(): Store
      reads this`cached, lru`order
    {
      Store(lru.order, Orphans(cached))
    }

    ghost predicate LruReady()
      reads lru
    {
      && lru.Valid() && lru.capacity == numBlocks
      && minWatermark == Watermark(numBlocks) && blockSize > 0
      && (forall p, b :: hash(p, b) != 0)
      && (forall h :: h in lru.order ==> h != 0 && lru.data[h] == 0)
    }

    ghost predicate Consistent()
      reads this`free, this`cached, lru
    {
      && LruReady()
      && Agree(numBlocks, cached, Elems(lru.order), free)
    }

    ghost predicate Valid()
      reads this, lru
    {
      && Consistent()
      && (Orphans(cached) != {} ==> numBlocks < 100 && lru.size == numBlocks)
      && (numBlocks >= 100 ==>
            && batches == Batches(numBlocks, issued)
            && |lru.order| == issued - BATCH * batches)
    }

    lemma ValidGood()
      requires Valid()
      ensures Good(numBlocks, Contents())
    {
      if numBlocks >= 100 { Amortised(numBlocks, issued); }
      assert forall h :: h in lru.order ==> h in Elems(lru.order);
    }

    constructor (numBlocks: nat, blockSize: nat, hash: Hasher)
      requires blockSize > 0
      requires forall p, b :: hash(p, b) != 0
      ensures Valid() && fresh(lru) && Contents() == EMPTY
      ensures this.numBlocks == numBlocks && this.blockSize == blockSize && this.hash == hash
    {
      this.numBlocks, this.blockSize, this.hash := numBlocks, blockSize, hash;
      minWatermark := numBlocks / 100;
      lru := new PrefixLRUCache(numBlocks);
      free := Range(numBlocks);
      cached := map[];
      issued, batches := 0, 0;
    }

    method FreeBlockId(id: int)
      modifies this`free
      ensures free == old(free) + {id}
    {
      free := free + {id};
    }

    /** Forgets a recorded hash and puts its id into the free set. */
    method FreeBlock(h: Hash, ghost keys: set<Hash>) returns (success: bool)
      modifies this`free, this`cached
      ensures success <==> h in old(cached)
      ensures cached == old(cached) - {h}
      ensures free == old(free) + if h in old(cached) then {old(cached)[h]} else {}
      ensures h in keys && old(Agree(numBlocks, cached, keys, free)) ==>
                Agree(numBlocks, cached, keys - {h}, free) && Orphans(cached) == old(Orphans(cached))
    {
      success := false;
      if h !in cached {
        assert cached - {h} == cached;
        return;
      }
      if h in keys && Agree(numBlocks, cached, keys, free) { AgreeFree(numBlocks, cached, keys, free, h); }
      var id := cached[h];
      cached := cached - {h};
      FreeBlockId(id);
      success := true;
    }

    /** One round of the eviction loop: the oldest LRU entry and its block go. */
    method EvictOldest() returns (success: bool)
      requires Consistent() && lru.order != []
      modifies this`free, this`cached, lru
      ensures Consistent() && success
      ensures lru.order == old(lru.order)[1..] && Orphans(cached) == Orphans(old(cached))
      ensures cached.Keys <= old(cached).Keys
    {
      ghost var keys := Elems(lru.order);
      ghost var oldest := lru.order[0];
      assert oldest in lru.order;
      assert oldest in keys;
      var item := lru.Pop();
      var h := item.value.0;
      assert Elems(lru.order) == keys - {oldest};
      success := false;
      if h != 0 {
        success := FreeBlock(h, keys);
      }
    }

    /** Frees the `n + 1` oldest blocks; the loop ends because every popped hash owns one. */
    method Evict(n: nat)
      requires Consistent() && |lru.order| > n
      modifies this`free, this`cached, lru
      ensures Consistent()
      ensures lru.order == old(lru.order)[n + 1..] && Orphans(cached) == Orphans(old(cached))
      ensures cached.Keys <= old(cached).Keys
    {
      var left: int := n;
      while left >= 0
        invariant -1 <= left <= n
        invariant Consistent() && Orphans(cached) == Orphans(old(cached))
        invariant cached.Keys <= old(cached).Keys
        invariant lru.order == old(lru.order)[n - left..]
        decreases left
      {
        var success := EvictOldest();
        if success { left := left - 1; }
      }
    }

    /** The watermark check: below it, free 81 blocks. */
    method CheckAndReclaimCache()
      requires Valid()
      modifies this`free, this`cached, this`batches, lru
      ensures Consistent() && Orphans(cached) == Orphans(old(cached))
      ensures cached.Keys <= old(cached).Keys
      ensures lru.order == Reclaim(numBlocks, old(lru.order))
      ensures |lru.order| == numBlocks ==> cached == old(cached) && free == old(free)
      ensures batches == old(batches) + if |old(lru.order)| > numBlocks - minWatermark then 1 else 0
    {
      ValidGood();
      DistinctCard(lru.order);
      if |free| < minWatermark {
        Evict(80);
        batches := batches + 1;
      }
    }

    /** An id removed from the free set, or -1 when none is left after the check. */
    method AllocateNewBlockId() returns (id: int)
      requires Valid()
      modifies this`free, this`cached, this`batches, lru
      ensures LruReady() && lru.order == Reclaim(numBlocks, old(lru.order))
      ensures id == -1 <==> |lru.order| == numBlocks
      ensures id == -1 ==> Consistent() && cached == old(cached) && free == old(free)
      ensures id !in free
      ensures id != -1 ==> 0 <= id && Agree(numBlocks, cached, Elems(lru.order), free + {id})
      ensures Orphans(cached) == Orphans(old(cached))
      ensures cached.Keys <= old(cached).Keys
      ensures batches == old(batches) + if |old(lru.order)| > numBlocks - minWatermark then 1 else 0
    {
      id := -1;
      CheckAndReclaimCache();
      DistinctCard(lru.order);
      if free == {} { return; }
      var next := AnyOf(free);
      ghost var before := free;
      free := free - {next};
      id := next;
      assert free + {next} == before;
    }

    /** Records h under a new block id, unless h is still recorded after the check: then it
        loses its record instead, and the new id is lost with it. */
    method AllocateBlock(h: Hash) returns (id: int)
      requires Valid() && h != 0
      modifies this`free, this`cached, this`batches, this`issued, lru
      ensures LruReady() && lru.order == Reclaim(numBlocks, old(lru.order))
      ensures batches == old(batches) + if |old(lru.order)| > numBlocks - minWatermark then 1 else 0
      ensures issued == old(issued) + if h in cached && id != -1 then 1 else 0
      ensures h in cached <==> h !in Elems(lru.order) && h !in Orphans(old(cached))
      ensures h in cached && |lru.order| < numBlocks ==>
                && Agree(numBlocks, cached, Elems(lru.order) + {h}, free) && id != -1
                && Orphans(cached) == Orphans(old(cached))
      ensures h in cached && |lru.order| == numBlocks ==>
                Consistent() && Orphans(cached) == Orphans(old(cached)) + {h} && id == -1
      ensures h in Elems(lru.order) ==>
                && Agree(numBlocks, cached, Elems(lru.order) - {h}, if id == -1 then free else free + {id})
                && Orphans(cached) == Orphans(old(cached)) && id !in free
      ensures h in Orphans(old(cached)) ==>
                id == -1 && cached == old(cached) - {h} && free == old(free) + {-1} && lru.order == old(lru.order)
    {
      hide Agree, Orphans, Batches, Reclaim, LruReady;
      ValidReady();
      if h in Orphans(cached) { OrphanId(numBlocks, cached, lru.order, h); }
      id := AllocateNewBlockId();
      RecordOrForget(h, id, Elems(lru.order));
    }

    lemma ValidReady()
      requires Valid()
      ensures LruReady() && |lru.order| <= numBlocks
      ensures Orphans(cached) != {} ==> numBlocks < 100 && |lru.order| == numBlocks
    {
    }

    /** h is recorded under the id, or forgotten, so that the id belongs to nobody. */
    method RecordOrForget(h: Hash, id: int, ghost keys: set<Hash>)
      requires (id == -1 || id >= 0) && id !in free
      requires Agree(numBlocks, cached, keys, if id == -1 then free else free + {id})
      modifies this`free, this`cached, this`issued
      ensures h in cached <==> h !in keys && h !in Orphans(old(cached))
      ensures issued == old(issued) + if h in cached && id != -1 then 1 else 0
      ensures h in cached ==>
                && Agree(numBlocks, cached, if id == -1 then keys else keys + {h}, free)
                && Orphans(cached) == Orphans(old(cached)) + if id == -1 then {h} else {}
      ensures h in keys ==>
                && Agree(numBlocks, cached, keys - {h}, if id == -1 then free else free + {id})
                && Orphans(cached) == Orphans(old(cached)) && id !in free
      ensures h in Orphans(old(cached)) ==> cached == old(cached) - {h} && free == old(free) + {-1}
    {
      hide Agree, Orphans;
      RecordedHow(numBlocks, cached, keys, if id == -1 then free else free + {id}, h);
      if h !in cached {
        RecordBlock(h, id, keys);
      } else {
        ForgetBlock(h, id, keys);
      }
    }

    method RecordBlock(h: Hash, id: int, ghost keys: set<Hash>)
      requires h !in cached && (id == -1 || (id >= 0 && id !in free))
      requires Agree(numBlocks, cached, keys, if id == -1 then free else free + {id})
      modifies this`cached, this`issued
      ensures h in cached && h !in keys && Agree(numBlocks, cached, if id == -1 then keys else keys + {h}, free)
      ensures Orphans(cached) == Orphans(old(cached)) + if id == -1 then {h} else {}
      ensures issued == old(issued) + if id == -1 then 0 else 1
    {
      hide Agree, Orphans;
      KeysRecorded(numBlocks, cached, keys, if id == -1 then free else free + {id}, h);
      AgreeRecord(numBlocks, cached, keys, free, h, id);
      if id != -1 { issued := issued + 1; }
      cached := cached[h := id];
    }

    method ForgetBlock(h: Hash, id: int, ghost keys: set<Hash>)
      requires h in cached && (id == -1 || id >= 0)
      requires Agree(numBlocks, cached, keys, if id == -1 then free else free + {id}) && id !in free
      modifies this`free, this`cached
      ensures cached == old(cached) - {h} && free == old(free) + {old(cached)[h]}
      ensures h in keys ==>
                && Agree(numBlocks, cached, keys - {h}, if id == -1 then free else free + {id})
                && Orphans(cached) == Orphans(old(cached)) && id !in free
    {
      hide Agree, Orphans;
      if h in keys {
        OwnersDiffer(numBlocks, cached, keys, if id == -1 then free else free + {id}, h, id);
        AgreeFree(numBlocks, cached, keys, if id == -1 then free else free + {id}, h);
        assert free + {id} + {cached[h]} == free + {cached[h]} + {id};
      }
      var success := FreeBlock(h, {});
    }

    lemma NewHash(h: Hash)
      requires Valid() && h !in cached
      ensures h !in Contents().held && h !in Contents().orphans
    {
      assert h !in Elems(lru.order);
    }

    /** The None branch of the save loop. Raised is the KeyError of a full cache. */
    method SaveNewBlock(h: Hash) returns (raised: bool)
      requires Valid() && h !in cached && h != 0
      modifies this`free, this`cached, this`batches, this`issued, lru
      ensures Valid()
      ensures Contents() == Touch(numBlocks, old(Contents()), h).store
      ensures raised == Touch(numBlocks, old(Contents()), h).Full?
      ensures !raised ==> issued == old(issued) + 1
    {
      hide Agree, Orphans, Batches, Distinct, Touch, Reclaim;
      NewHash(h);
      TouchNew(numBlocks, Contents(), h);
      if numBlocks >= 100 { ReclaimStep(numBlocks, issued, lru.order); }
      var id := AllocateBlock(h);
      ghost var kept := lru.order;
      raised := lru.Put(h, 0);
      assert Consistent() by {
        assert !raised ==> lru.order == kept + [h];
      }
    }

    /** One iteration of the save loop: `goal` is the outcome of the whole save, with m
        misses so far and `rest` to come. */
    method SaveBlock(h: Hash, ghost rest: seq<Hash>, ghost m: nat, ghost goal: Outcome)
      returns (raised: bool, missed: bool)
      requires Valid() && h != 0
      requires goal == Plus(m, TouchAll(numBlocks, Contents(), [h] + rest))
      modifies this, lru
      ensures Valid()
      ensures raised ==> goal == Full(Contents())
      ensures !raised ==> goal == Plus(m + (if missed then 1 else 0), TouchAll(numBlocks, Contents(), rest))
      ensures !raised ==> issued == old(issued) + if missed then 1 else 0
    {
      ghost var s := Contents();
      PlusStep(numBlocks, m, s, h, rest);
      assert h in cached <==> h in s.held || h in s.orphans by {
        assert h in Elems(lru.order) <==> h in lru.order;
      }
      raised, missed := false, false;
      var index := if h in cached then Some(cached[h]) else None;
      var res := lru.Get(h);
      if index == None {
        raised := SaveNewBlock(h);
        missed := true;
      }
    }

    /** hash((is_first_block, prev_block_hash, *cur_block_token_ids)) */
    method HashBlock(prompt: seq<Token>, prev: Option<Hash>, i: nat, ghost hs: seq<Hash>) returns (h: Hash)
      requires blockSize > 0 && hs == Chain(hash, blockSize, None, prompt) && i < |hs|
      requires prev == PrevHash(hs, i)
      requires forall p, b :: hash(p, b) != 0
      ensures h == hs[i] && h != 0
    {
      assert (prev == None) == (i == 0);
      ChainAt(hash, blockSize, None, prompt, i);
      SpanIsProduct(blockSize, i);
      SpanIsProduct(blockSize, i + 1);
      h := hash(prev, prompt[i * blockSize..(i + 1) * blockSize]);
    }

    /** `_save` and `_save_prefill`: the number of new blocks, or Raised. */
    method Save(prompt: seq<Token>) returns (raised: bool, saved: nat)
      requires Valid()
      modifies this, lru
      ensures Valid()
      ensures var o := TouchAll(numBlocks, old(Contents()), Chain(hash, blockSize, None, prompt));
              && Contents() == o.store && raised == o.Full?
              && (o.Kept? ==> saved == o.misses && issued == old(issued) + saved)
    {
      hide Agree, Orphans, Batches, Distinct, Touch, Chain;
      ghost var store, hs := Contents(), Chain(hash, blockSize, None, prompt);
      ghost var goal := TouchAll(numBlocks, store, hs);
      saved, raised := 0, false;
      var prev: Option<Hash> := None;
      var blocks := BlockCount(hash, blockSize, prompt);
      for logicId := 0 to blocks
        invariant Valid() && store == Contents()
        invariant prev == PrevHash(hs, logicId)
        invariant |store.held| <= numBlocks && goal == Plus(saved, TouchAll(numBlocks, store, hs[logicId..]))
        invariant issued == old(issued) + saved
      {
        var h := HashBlock(prompt, prev, logicId, hs);
        assert hs[logicId..] == [h] + hs[logicId + 1..];
        var full, missed := SaveBlock(h, hs[logicId + 1..], saved, goal);
        store := Contents();
        if full { return true, saved; }
        if missed { saved := saved + 1; }
        prev := Some(h);
      }
    }

    /** How many leading full blocks of the prompt are cached. */
    method GetNumCachedBlocks(prompt: seq<Token>) returns (count: nat)
      requires Valid()
      ensures count == Lookup(lru.order, Chain(hash, blockSize, None, prompt))
    {
      hide Orphans, Batches, Distinct, Chain;
      ghost var hs := Chain(hash, blockSize, None, prompt);
      count := 0;
      var prev: Option<Hash> := None;
      var blocks := BlockCount(hash, blockSize, prompt);
      for logicId := 0 to blocks
        invariant count == logicId && prev == PrevHash(hs, logicId)
        invariant Lookup(lru.order, hs) == count + Lookup(lru.order, hs[logicId..])
      {
        var h := HashBlock(prompt, prev, logicId, hs);
        assert hs[logicId..] == [h] + hs[logicId + 1..];
        assert h in lru.order <==> h in Elems(lru.order);
        var index := if h in cached then Some(cached[h]) else None;
        var res := lru.Query(h);
        if index == None || res == -1 { return; }
        count := count + 1;
        prev := Some(h);
      }
    }

    /** `Replica.get_num_recompute_token_ids`: the tokens a prefill would compute. A prompt
        with nothing cached, and one cached to its last token, both count in full. */
    method GetNumRecomputeTokenIds(prompt: seq<Token>) returns (tokens: nat)
      requires Valid()
      ensures tokens == RecomputeLen(hash, blockSize, lru.order, prompt)
      ensures prompt != [] ==> 1 <= tokens <= |prompt|
      ensures forall k: nat :: HoldsUpTo(hash, blockSize, lru.order, prompt, k) ==>
                tokens == if 0 < k * blockSize < |prompt| then |prompt| - k * blockSize else |prompt|
    {
      forall k: nat | HoldsUpTo(hash, blockSize, lru.order, prompt, k)
        ensures RecomputeLen(hash, blockSize, lru.order, prompt) ==
                if 0 < k * blockSize < |prompt| then |prompt| - k * blockSize else |prompt|
      {
        RecomputeIs(hash, blockSize, lru.order, prompt, k);
      }
      var blocks := GetNumCachedBlocks(prompt);
      LookupSpan(hash, blockSize, lru.order, prompt);
      SpanIsProduct(blockSize, blocks);
      if prompt != [] { RecomputeRange(hash, blockSize, lru.order, prompt); }
      var cachedTokens := if blocks > 0 then blocks * blockSize else -1;
      if 0 < cachedTokens < |prompt| {
        tokens := |prompt| - cachedTokens;
      } else {
        tokens := |prompt|;
      }
    }
  }

  lemma LookupSpan(hash: Hasher, bs: nat, held: seq<Hash>, p: seq<Token>)
    requires bs > 0
    ensures Span(bs, Lookup(held, Chain(hash, bs, None, p))) <= |p|
    ensures Lookup(held, Chain(hash, bs, None, p)) > 0 ==> Span(bs, Lookup(held, Chain(hash, bs, None, p))) > 0
  {
    var c := Chain(hash, bs, None, p);
    ChainLength(hash, bs, None, p);
    SpanMono(bs, Lookup(held, c), |c|);
    if Lookup(held, c) > 0 { SpanMono(bs, 1, Lookup(held, c)); }
  }

  /** The outcome of a save that had m misses before reaching the state o starts from. */
  function Plus(m: nat, o: Outcome): Outcome {
    match o
    case Full(s) => Full(s)
    case Kept(s, k) => Kept(s, m + k)
  }

  lemma PlusStep(n: nat, m: nat, s: Store, h: Hash, hs: seq<Hash>)
    requires |s.held| <= n
    ensures var o := Touch(n, s, h);
            Plus(m, TouchAll(n, s, [h] + hs)) == if o.Full? then o else Plus(m + o.misses, TouchAll(n, o.store, hs))
  {
    assert ([h] + hs)[1..] == hs;
  }

  /** prev_block_hash at the start of round i. */
  function PrevHash(hs: seq<Hash>, i: nat): Option<Hash>
    requires i <= |hs|
  {
    if i == 0 then None else Some(hs[i - 1])
  }

  /** len(prompt_token_ids) // block_size */
  method BlockCount(hash: Hasher, bs: nat, p: seq<Token>) returns (n: nat)
    requires bs > 0
    ensures n == |Chain(hash, bs, None, p)|
  {
    ChainLengthDiv(hash, bs, None, p);
    n := |p| / bs;
  }
}
