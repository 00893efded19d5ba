/** The chained block hashes of a prompt, and what lookups mean for runs of saves. */
module HashChain {
  import opened Common
  import opened Recency

  type Token = int

  /** hash((is_first_block, prev_block_hash, *tokens)): the flag is redundant with `prev`. */
  type Hasher = (Option<Hash>, seq<Token>) -> Hash

  /** The hashes of the full blocks of p, the first one chained to `prev`. */
  function Chain(hash: Hasher, bs: nat, prev: Option<Hash>, p: seq<Token>): seq<Hash>
    requires bs > 0
    decreases |p|
  {
    if |p| < bs then []
    else var h := hash(prev, p[..bs]); [h] + Chain(hash, bs, Some(h), p[bs..])
  }

  ghost predicate Injective(hash: Hasher) {
    forall a, x, b, y :: hash(a, x) == hash(b, y) ==> a == b && x == y
  }

  /** The token length of k blocks, k * bs by repeated addition. */
  function Span(bs: nat, k: nat): nat { if k == 0 then 0 else Span(bs, k - 1) + bs }

  lemma {:induction false} SpanIsProduct(bs: nat, k: nat)
    ensures Span(bs, k) == k * bs
  {
    if k > 0 {
      SpanIsProduct(bs, k - 1);
      assert (k - 1) * bs + bs == k * bs;
    }
  }

  lemma {:induction false} SpanMono(bs: nat, i: nat, k: nat)
    requires i <= k
    ensures Span(bs, i) <= Span(bs, k)
    decreases k
  {
    if i < k { SpanMono(bs, i, k - 1); }
  }

  lemma {:induction false} SpanShift(bs: nat, k: nat)
    ensures Span(bs, k + 1) == bs + Span(bs, k)
  {
    if k > 0 { SpanShift(bs, k - 1); }
  }

  /** There is one hash for every full block. */
  lemma {:induction false} ChainLength(hash: Hasher, bs: nat, prev: Option<Hash>, p: seq<Token>)
    requires bs > 0
    ensures var n := |Chain(hash, bs, prev, p)|; Span(bs, n) <= |p| < Span(bs, n + 1)
    decreases |p|
  {
    if |p| >= bs {
      var h := hash(prev, p[..bs]);
      ChainLength(hash, bs, Some(h), p[bs..]);
      SpanShift(bs, |Chain(hash, bs, Some(h), p[bs..])|);
      SpanShift(bs, |Chain(hash, bs, Some(h), p[bs..])| + 1);
    }
  }

  lemma SpanOfDiv(bs: nat, a: nat, q: nat)
    requires bs > 0 && q == a / bs
    ensures Span(bs, q) <= a < Span(bs, q) + bs
  {
    SpanIsProduct(bs, q);
    assert a == bs * q + a % bs;
  }

  lemma SpanUnique(bs: nat, a: nat, n: nat, q: nat)
    requires Span(bs, n) <= a < Span(bs, n + 1) && Span(bs, q) <= a < Span(bs, q + 1)
    ensures n == q
  {
    if n < q { SpanMono(bs, n + 1, q); }
    if q < n { SpanMono(bs, q + 1, n); }
  }

  lemma CountIsDiv(bs: nat, a: nat, n: nat)
    requires bs > 0 && Span(bs, n) <= a < Span(bs, n + 1)
    ensures n == a / bs
  {
    var q := a / bs;
    SpanOfDiv(bs, a, q);
    SpanUnique(bs, a, n, q);
  }

  lemma ChainLengthDiv(hash: Hasher, bs: nat, prev: Option<Hash>, p: seq<Token>)
    requires bs > 0
    ensures |Chain(hash, bs, prev, p)| == |p| / bs
  {
    ChainLength(hash, bs, prev, p);
    CountIsDiv(bs, |p|, |Chain(hash, bs, prev, p)|);
  }

  /** The i-th block of p. */
  function Block(bs: nat, p: seq<Token>, i: nat): seq<Token>
    requires Span(bs, i + 1) <= |p|
  {
    p[Span(bs, i)..Span(bs, i + 1)]
  }

  lemma {:induction false} ChainAt(hash: Hasher, bs: nat, prev: Option<Hash>, p: seq<Token>, i: nat)
    requires bs > 0 && i < |Chain(hash, bs, prev, p)|
    ensures Span(bs, i + 1) <= |p|
    ensures var c := Chain(hash, bs, prev, p);
            c[i] == hash(if i == 0 then prev else Some(c[i - 1]), Block(bs, p, i))
    decreases i
  {
    ChainLength(hash, bs, prev, p);
    SpanMono(bs, i + 1, |Chain(hash, bs, prev, p)|);
    if i > 0 {
      var h := hash(prev, p[..bs]);
      ChainAt(hash, bs, Some(h), p[bs..], i - 1);
      SpanShift(bs, i - 1);
      SpanShift(bs, i);
      assert Block(bs, p[bs..], i - 1) == Block(bs, p, i);
    }
  }

  /** With an injective hash, equal chained hashes mean equal positions and equal prefixes. */
  lemma {:induction false} SameHash(hash: Hasher, bs: nat, p: seq<Token>, q: seq<Token>, i: nat, j: nat)
    requires bs > 0 && Injective(hash)
    requires i < |Chain(hash, bs, None, p)| && j < |Chain(hash, bs, None, q)|
    requires Chain(hash, bs, None, p)[i] == Chain(hash, bs, None, q)[j]
    ensures i == j && Span(bs, i + 1) <= |p| && p[..Span(bs, i + 1)] <= q
    decreases i
  {
    ChainAt(hash, bs, None, p, i);
    ChainAt(hash, bs, None, q, j);
    assert Block(bs, p, i) == Block(bs, q, j);
    if i > 0 && j > 0 {
      SameHash(hash, bs, p, q, i - 1, j - 1);
      assert p[..Span(bs, i + 1)] == p[..Span(bs, i)] + Block(bs, p, i);
      assert q[..Span(bs, i + 1)] == q[..Span(bs, i)] + Block(bs, q, i);
    } else {
      assert i == j == 0;
      assert p[..bs] == Block(bs, p, 0) && q[..bs] == Block(bs, q, 0);
    }
  }

  lemma ChainDistinct(hash: Hasher, bs: nat, p: seq<Token>)
    requires bs > 0 && Injective(hash)
    ensures Distinct(Chain(hash, bs, None, p))
  {
    var c := Chain(hash, bs, None, p);
    forall i, j | 0 <= i < j < |c| ensures c[i] != c[j] {
      if c[i] == c[j] { SameHash(hash, bs, p, p, i, j); }
    }
  }

  // ---------------------------------------------------------------- whole runs

  /** The store after saving the prompts ps in turn; a save that raises leaves its partial
      effect behind. */
  function Run(hash: Hasher, bs: nat, n: nat, ps: seq<seq<Token>>): (s: Store)
    requires bs > 0
    ensures |s.held| <= n
  {
    if ps == [] then EMPTY
    else
      var last := |ps| - 1;
      TouchAll(n, Run(hash, bs, n, ps[..last]), Chain(hash, bs, None, ps[last])).store
  }

  lemma {:induction false} RunGood(hash: Hasher, bs: nat, n: nat, ps: seq<seq<Token>>)
    requires bs > 0
    ensures Good(n, Run(hash, bs, n, ps))
  {
    if ps != [] {
      var last := |ps| - 1;
      RunGood(hash, bs, n, ps[..last]);
      TouchAllKeepsGood(n, Run(hash, bs, n, ps[..last]), Chain(hash, bs, None, ps[last]));
    }
  }

  ghost predicate FromSave(hash: Hasher, bs: nat, ps: seq<seq<Token>>, h: Hash)
    requires bs > 0
  {
    exists q :: q in ps && h in Chain(hash, bs, None, q)
  }

  lemma {:induction false} HeldFromSaves(hash: Hasher, bs: nat, n: nat, ps: seq<seq<Token>>)
    requires bs > 0
    ensures forall h :: h in Run(hash, bs, n, ps).held ==> FromSave(hash, bs, ps, h)
  {
    if ps != [] {
      var last := |ps| - 1;
      var s, c := Run(hash, bs, n, ps[..last]), Chain(hash, bs, None, ps[last]);
      HeldFromSaves(hash, bs, n, ps[..last]);
      RunGood(hash, bs, n, ps[..last]);
      OnlyTouched(n, s, c);
      forall h | h in Run(hash, bs, n, ps).held ensures FromSave(hash, bs, ps, h) {
        if h in s.held {
          var q :| q in ps[..last] && h in Chain(hash, bs, None, q);
          assert q in ps;
        } else {
          assert ps[last] in ps;
        }
      }
    }
  }

  ghost predicate SavedPrefix(ps: seq<seq<Token>>, p: seq<Token>) {
    exists q :: q in ps && p <= q
  }

  /** A hit is never invented: after any run of saves, on a pool of any size and with any
      failures, the tokens a lookup reports as cached are a prefix of one saved prompt. */
  lemma LookupSound(hash: Hasher, bs: nat, n: nat, ps: seq<seq<Token>>, p: seq<Token>)
    requires bs > 0 && Injective(hash)
    ensures var k := Lookup(Run(hash, bs, n, ps).held, Chain(hash, bs, None, p));
            Span(bs, k) <= |p| && (k > 0 ==> SavedPrefix(ps, p[..Span(bs, k)]))
  {
    hide Run, Chain, Lookup, Span;
    var k := Lookup(Run(hash, bs, n, ps).held, Chain(hash, bs, None, p));
    if k == 0 { assert Span(bs, 0) == 0 by { SpanIsProduct(bs, 0); } }
    if k > 0 {
      var h := Chain(hash, bs, None, p)[k - 1];
      HeldFromSaves(hash, bs, n, ps);
      assert FromSave(hash, bs, ps, h);
      var q :| q in ps && h in Chain(hash, bs, None, q);
      SameHash(hash, bs, p, q, k - 1, IndexOf(Chain(hash, bs, None, q), h));
    }
  }

  lemma {:induction false} ChainPrefix(hash: Hasher, bs: nat, prev: Option<Hash>, p: seq<Token>, k: nat)
    requires bs > 0 && k <= |Chain(hash, bs, prev, p)|
    ensures Span(bs, k) <= |p| && Chain(hash, bs, prev, p[..Span(bs, k)]) == Chain(hash, bs, prev, p)[..k]
    decreases k
  {
    ChainLength(hash, bs, prev, p);
    SpanMono(bs, k, |Chain(hash, bs, prev, p)|);
    if k > 0 {
      var h := hash(prev, p[..bs]);
      ChainPrefix(hash, bs, Some(h), p[bs..], k - 1);
      SpanShift(bs, k - 1);
      assert p[..Span(bs, k)][..bs] == p[..bs];
      assert p[..Span(bs, k)][bs..] == p[bs..][..Span(bs, k - 1)];
    } else {
      assert p[..0] == [];
    }
  }

  /** The prefix of i blocks exists and its last block, which by the chaining identifies
      the whole prefix, is held. */
  ghost predicate HoldsPrefix(hash: Hasher, bs: nat, held: seq<Hash>, p: seq<Token>, i: nat)
    requires bs > 0
  {
    && 1 <= i && Span(bs, i) <= |p|
    && var c := Chain(hash, bs, None, p[..Span(bs, i)]);
       c != [] && c[|c| - 1] in held
  }

  ghost predicate HeldAt(held: seq<Hash>, c: seq<Hash>, i: nat) { 1 <= i <= |c| && c[i - 1] in held }

  lemma HoldsPrefixAt(hash: Hasher, bs: nat, held: seq<Hash>, p: seq<Token>, i: nat)
    requires bs > 0
    ensures HoldsPrefix(hash, bs, held, p, i) <==> HeldAt(held, Chain(hash, bs, None, p), i)
  {
    var c := Chain(hash, bs, None, p);
    ChainLength(hash, bs, None, p);
    if i <= |c| {
      ChainPrefix(hash, bs, None, p, i);
    } else {
      SpanMono(bs, |c| + 1, i);
    }
  }

  lemma LookupUnique(held: seq<Hash>, c: seq<Hash>, k: nat)
    ensures k == Lookup(held, c) <==>
            (forall i :: 1 <= i <= k ==> HeldAt(held, c, i)) && !HeldAt(held, c, k + 1)
  {
    var m := Lookup(held, c);
    assert forall i :: 1 <= i <= m ==> HeldAt(held, c, i);
    assert !HeldAt(held, c, m + 1);
  }

  /** The lookup is the largest k for which every block-aligned prefix of p of 1..k blocks
      is held. */
  lemma LookupLargest(hash: Hasher, bs: nat, held: seq<Hash>, p: seq<Token>, k: nat)
    requires bs > 0
    ensures k == Lookup(held, Chain(hash, bs, None, p)) <==>
            && (forall i :: 1 <= i <= k ==> HoldsPrefix(hash, bs, held, p, i))
            && !HoldsPrefix(hash, bs, held, p, k + 1)
  {
    forall i: nat ensures HoldsPrefix(hash, bs, held, p, i) <==> HeldAt(held, Chain(hash, bs, None, p), i) {
      HoldsPrefixAt(hash, bs, held, p, i);
    }
    LookupUnique(held, Chain(hash, bs, None, p), k);
  }

  /** The prefill length left for a prompt (`get_num_recompute_token_ids`): the tokens after
      the cached blocks; all of them when nothing or everything is cached. */
  function RecomputeLen(hash: Hasher, bs: nat, held: seq<Hash>, p: seq<Token>): int
    requires bs > 0
  {
    var cachedTokens := Span(bs, Lookup(held, Chain(hash, bs, None, p)));
    if 0 < cachedTokens < |p| then |p| - cachedTokens else |p|
  }

  /** Every block-aligned prefix of p of 1..k blocks is held, and that of k + 1 is not. */
  ghost predicate HoldsUpTo(hash: Hasher, bs: nat, held: seq<Hash>, p: seq<Token>, k: nat)
    requires bs > 0
  {
    (forall i :: 1 <= i <= k ==> HoldsPrefix(hash, bs, held, p, i)) && !HoldsPrefix(hash, bs, held, p, k + 1)
  }

  /** The prefill length is the prompt's but for its leading held blocks, each of bs tokens; a
      prompt with none of them, or whose every token is in them, counts in full. */
  lemma RecomputeIs(hash: Hasher, bs: nat, held: seq<Hash>, p: seq<Token>, k: nat)
    requires bs > 0 && HoldsUpTo(hash, bs, held, p, k)
    ensures k * bs <= |p|
    ensures RecomputeLen(hash, bs, held, p) == if 0 < k * bs < |p| then |p| - k * bs else |p|
  {
    LookupLargest(hash, bs, held, p, k);
    SpanIsProduct(bs, k);
    ChainLength(hash, bs, None, p);
    SpanMono(bs, k, |Chain(hash, bs, None, p)|);
  }

  /** The prefill length of a non-empty prompt is never 0; it is shorter than the prompt
      exactly when some but not all of its tokens are found. */
  lemma RecomputeRange(hash: Hasher, bs: nat, held: seq<Hash>, p: seq<Token>)
    requires bs > 0 && p != []
    ensures 1 <= RecomputeLen(hash, bs, held, p) <= |p|
    ensures RecomputeLen(hash, bs, held, p) < |p| <==>
            HoldsPrefix(hash, bs, held, p, 1) && !HoldsWhole(hash, bs, held, p)
  {
    var c := Chain(hash, bs, None, p);
    var k := Lookup(held, c);
    ChainLength(hash, bs, None, p);
    SpanMono(bs, k, |c|);
    HoldsPrefixAt(hash, bs, held, p, 1);
    if k > 0 { SpanMono(bs, 1, k); }
    if Span(bs, k) == |p| && k < |c| { SpanMono(bs, k + 1, |c|); }
    LookupUnique(held, c, k);
    if Span(bs, |c|) == |p| && k == |c| {
      forall i | 1 <= i <= k ensures HoldsPrefix(hash, bs, held, p, i) { HoldsPrefixAt(hash, bs, held, p, i); }
    }
    if HoldsWhole(hash, bs, held, p) && k < |c| { HoldsPrefixAt(hash, bs, held, p, k + 1); }
  }

  /** Every token of p is in a held block. */
  ghost predicate HoldsWhole(hash: Hasher, bs: nat, held: seq<Hash>, p: seq<Token>)
    requires bs > 0
  {
    var n := |Chain(hash, bs, None, p)|;
    Span(bs, n) == |p| && forall i :: 1 <= i <= n ==> HoldsPrefix(hash, bs, held, p, i)
  }

  // ---------------------------------------------------------------- prompts

  /** Saving a prompt of at most N - w - 79 full blocks after any run of saves makes the next
      lookup on it report all of its blocks. */
  lemma SavedPromptFound(hash: Hasher, bs: nat, n: nat, ps: seq<seq<Token>>, p: seq<Token>)
    requires bs > 0 && n >= 100 && |p| / bs <= SafeBlocks(n)
    ensures Lookup(Run(hash, bs, n, ps + [p]).held, Chain(hash, bs, None, p)) == |p| / bs
  {
    var c := Chain(hash, bs, None, p);
    ChainLengthDiv(hash, bs, None, p);
    ElemsCard(c);
    RunGood(hash, bs, n, ps);
    assert (ps + [p])[..|ps|] == ps;
    SaveThenLookup(n, Run(hash, bs, n, ps), c);
  }

  lemma {:induction false} ElemsCard<T>(s: seq<T>)
    ensures |Elems(s)| <= |s|
  {
    if s != [] {
      ElemsCard(s[1..]);
      assert Elems(s) == {s[0]} + Elems(s[1..]);
    }
  }

  /** Every prompt of b full blocks is found whole by the query right after its save, whatever
      was saved before. */
  ghost predicate AlwaysFoundPrompt(hash: Hasher, bs: nat, n: nat, b: nat)
    requires bs > 0
  {
    forall ps, p :: |p| / bs == b ==> Lookup(Run(hash, bs, n, ps + [p]).held, Chain(hash, bs, None, p)) == b
  }

  /** N - w - 79 is exact for prompts too, under any injective hash. */
  lemma PromptBoundExact(hash: Hasher, bs: nat, n: nat, b: nat)
    requires bs > 0 && n >= 100 && Injective(hash)
    ensures AlwaysFoundPrompt(hash, bs, n, b) <==> b <= SafeBlocks(n)
  {
    if b <= SafeBlocks(n) {
      forall ps, p | |p| / bs == b ensures Lookup(Run(hash, bs, n, ps + [p]).held, Chain(hash, bs, None, p)) == b {
        SavedPromptFound(hash, bs, n, ps, p);
      }
    } else {
      var q, p := Uniform(bs, 80, 0), Uniform(bs, b, 1);
      LostPrompt(hash, bs, n, q, p);
      assert |p| / bs == b && Lookup(Run(hash, bs, n, [q] + [p]).held, Chain(hash, bs, None, p)) != b;
    }
  }

  /** A prompt of k blocks of one token. */
  function Uniform(bs: nat, k: nat, t: Token): (p: seq<Token>)
    requires bs > 0
    ensures |p| == Span(bs, k) && |p| / bs == k
  {
    CountIsDiv(bs, Span(bs, k), k);
    seq(Span(bs, k), _ => t)
  }

  /** 80 blocks of another prompt in the pool are enough to lose the front of a longer one. */
  lemma LostPrompt(hash: Hasher, bs: nat, n: nat, q: seq<Token>, p: seq<Token>)
    requires bs > 0 && n >= 100 && Injective(hash) && |q| / bs == 80 && |p| / bs > SafeBlocks(n)
    requires q != [] && p != [] && q[0] != p[0]
    ensures Lookup(Run(hash, bs, n, [q] + [p]).held, Chain(hash, bs, None, p)) == 0
  {
    hide Run;
    var a, c := Chain(hash, bs, None, q), Chain(hash, bs, None, p);
    ChainLengthDiv(hash, bs, None, q);
    ChainLengthDiv(hash, bs, None, p);
    ChainDistinct(hash, bs, q);
    ChainDistinct(hash, bs, p);
    forall h | h in c ensures h !in a {
      if h in a {
        SameHash(hash, bs, q, p, IndexOf(a, h), IndexOf(c, h));
        SpanMono(bs, 1, IndexOf(a, h) + 1);
      }
    }
    LostSave(n, a, c);
    TwoSaves(hash, bs, n, q, p);
  }

  lemma TwoSaves(hash: Hasher, bs: nat, n: nat, q: seq<Token>, p: seq<Token>)
    requires bs > 0
    ensures Run(hash, bs, n, [q] + [p]) ==
              TouchAll(n, TouchAll(n, EMPTY, Chain(hash, bs, None, q)).store, Chain(hash, bs, None, p)).store
  {
    hide TouchAll, Chain;
    assert ([q] + [p])[..1] == [q] && [q][..0] == [];
    assert Run(hash, bs, n, [q]) == TouchAll(n, EMPTY, Chain(hash, bs, None, q)).store;
  }

  // ---------------------------------------------------------------- working sets

  /** The hashes of the blocks of several prompts, one prompt after the other. */
  function Flat(hash: Hasher, bs: nat, qs: seq<seq<Token>>): seq<Hash>
    requires bs > 0
  {
    if qs == [] then [] else Flat(hash, bs, qs[..|qs| - 1]) + Chain(hash, bs, None, qs[|qs| - 1])
  }

  lemma {:induction false} InFlat(hash: Hasher, bs: nat, qs: seq<seq<Token>>, q: seq<Token>)
    requires bs > 0 && q in qs
    ensures forall h :: h in Chain(hash, bs, None, q) ==> h in Flat(hash, bs, qs)
  {
    var last := |qs| - 1;
    if q != qs[last] {
      assert qs == qs[..last] + [qs[last]];
      InFlat(hash, bs, qs[..last], q);
    }
  }

  /** The blocks of the prompts saved last are the newest of the store. */
  lemma {:induction false} SavesNewest(hash: Hasher, bs: nat, n: nat, ps: seq<seq<Token>>, qs: seq<seq<Token>>)
      returns (j: nat)
    requires bs > 0 && n >= 100 && |Elems(Flat(hash, bs, qs))| <= SafeBlocks(n)
    ensures NewestFrom(Run(hash, bs, n, ps + qs).held, j, Flat(hash, bs, qs))
  {
    hide TouchAll, Chain;
    if qs == [] {
      assert ps + qs == ps;
      j := |Run(hash, bs, n, ps).held|;
    } else {
      var last := |qs| - 1;
      var t, c := Flat(hash, bs, qs[..last]), Chain(hash, bs, None, qs[last]);
      assert Elems(t) <= Elems(t + c);
      SubsetCard(Elems(t), Elems(t + c));
      var i := SavesNewest(hash, bs, n, ps, qs[..last]);
      assert (ps + qs)[..|ps + qs| - 1] == ps + qs[..last];
      RunGood(hash, bs, n, ps + qs[..last]);
      j := TouchAllNewest(n, Run(hash, bs, n, ps + qs[..last]), c, i, t);
    }
  }

  /** Prompts whose blocks have at most N - w - 79 distinct hashes together are all found whole
      after all of them have been saved, whatever was saved before. */
  lemma WorkingSetFound(hash: Hasher, bs: nat, n: nat, ps: seq<seq<Token>>, qs: seq<seq<Token>>, q: seq<Token>)
    requires bs > 0 && n >= 100 && |Elems(Flat(hash, bs, qs))| <= SafeBlocks(n) && q in qs
    ensures Lookup(Run(hash, bs, n, ps + qs).held, Chain(hash, bs, None, q)) == |q| / bs
  {
    hide Run, Chain, Flat;
    var j := SavesNewest(hash, bs, n, ps, qs);
    var r, c, f := Run(hash, bs, n, ps + qs).held, Chain(hash, bs, None, q), Flat(hash, bs, qs);
    InFlat(hash, bs, qs, q);
    forall h | h in c ensures h in r {
      assert h in Elems(f);
      assert h in r[j..];
    }
    LookupAll(r, c);
    ChainLengthDiv(hash, bs, None, q);
  }

  /** Any prompts with d distinct block hashes together are all found after their saves. */
  ghost predicate AlwaysFoundSet(hash: Hasher, bs: nat, n: nat, d: nat)
    requires bs > 0
  {
    forall ps, qs, q :: |Elems(Flat(hash, bs, qs))| == d && q in qs ==>
      Lookup(Run(hash, bs, n, ps + qs).held, Chain(hash, bs, None, q)) == |q| / bs
  }

  /** The bound is exact for working sets as well. */
  lemma WorkingSetExact(hash: Hasher, bs: nat, n: nat, d: nat)
    requires bs > 0 && n >= 100 && Injective(hash)
    ensures AlwaysFoundSet(hash, bs, n, d) <==> d <= SafeBlocks(n)
  {
    if d <= SafeBlocks(n) {
      forall ps, qs, q | |Elems(Flat(hash, bs, qs))| == d && q in qs
        ensures Lookup(Run(hash, bs, n, ps + qs).held, Chain(hash, bs, None, q)) == |q| / bs
      {
        WorkingSetFound(hash, bs, n, ps, qs, q);
      }
    } else {
      var q, p := Uniform(bs, 80, 0), Uniform(bs, d, 1);
      LostPrompt(hash, bs, n, q, p);
      ChainDistinct(hash, bs, p);
      ChainLengthDiv(hash, bs, None, p);
      DistinctCard(Chain(hash, bs, None, p));
      FlatOne(hash, bs, p);
      assert |Elems(Flat(hash, bs, [p]))| == d && p in [p];
      assert Lookup(Run(hash, bs, n, [q] + [p]).held, Chain(hash, bs, None, p)) != |p| / bs;
    }
  }

  lemma FlatOne(hash: Hasher, bs: nat, p: seq<Token>)
    requires bs > 0
    ensures Flat(hash, bs, [p]) == Chain(hash, bs, None, p)
  {
    assert [p][..0] == [];
  }

  /** Whatever its length, a prompt just saved is found whole or not at all. */
  lemma SavedPromptAllOrNothing(hash: Hasher, bs: nat, n: nat, ps: seq<seq<Token>>, p: seq<Token>)
    requires bs > 0 && n >= 100 && Injective(hash)
    ensures var r := Run(hash, bs, n, ps + [p]).held;
            Lookup(r, Chain(hash, bs, None, p)) == if |p| / bs <= |r| then |p| / bs else 0
  {
    var c := Chain(hash, bs, None, p);
    ChainLengthDiv(hash, bs, None, p);
    ChainDistinct(hash, bs, p);
    RunGood(hash, bs, n, ps);
    assert (ps + [p])[..|ps|] == ps;
    NeverFull(n, Run(hash, bs, n, ps), c);
    AllOrNothing(n, Run(hash, bs, n, ps), c);
  }
}
