/** The mutable sliding-window histogram over the radix tree. */
module Histogram {
  import opened RadixTree
  import opened RadixCache
  import opened WindowLog

  /** The context lengths of the nodes. */
  function Lens(nodes: seq<Node>): (lens: seq<nat>)
    ensures |lens| == |nodes|
  {
    seq(|nodes|, i requires 0 <= i < |nodes| => nodes[i].contextLength)
  }

  class SlidingWindowHistogram {
    const window: int
    const cache: LPRadixCache
    var histogram: map<nat, int>
    var numRequests: map<nat, int>
    var sumPrompt: map<nat, int>
    var sumShare: map<nat, int>
    var unshareRatio: map<nat, real>
    var curNumDecode: map<nat, int>
    var timestamps: seq<Entry>

    ghost var added: seq<int> // per log entry, the leaf's own tokens when it was logged
    ghost var drift: map<nat, int> // per node, the fold of shared tokens minus sumShare

    /** Three sums equal the folds over the live entries, the fourth does but for its drift,
        and all maps have exactly the nodes with live entries as keys. */
    ghost predicate Valid()
      reads this, cache
    {
      Right(Lens(cache.nodes), timestamps, added, histogram, sumPrompt, numRequests, sumShare, drift, unshareRatio,
          curNumDecode)
    }

    static ghost predicate Right(lens: seq<nat>, log: seq<Entry>, added: seq<int>, h: map<nat, int>, p: map<nat, int>,
        c: map<nat, int>, s: map<nat, int>, drift: map<nat, int>, u: map<nat, real>, d: map<nat, int>) {
      && Logged(log, lens) && Sums(h, log, lens) && Sums(p, log, lens) && Counts(c, log)
      && Shares(s, drift, log, added, lens) && Keyed(u, log) && Keyed(d, log)
    }

    constructor (window: int, cache: LPRadixCache)
      ensures Valid() && this.window == window && this.cache == cache && timestamps == []
    {
      this.window, this.cache := window, cache;
      histogram, numRequests, sumPrompt, sumShare, unshareRatio, curNumDecode :=
          map[], map[], map[], map[], map[], map[];
      timestamps, added, drift := [], [], map[];
    }

    /** Logs a request of leaf node `leaf` under the important node `node`. */
    method AddRequest(now: int, node: nat, leaf: nat, decodingLength: int)
      requires Valid() && leaf < |cache.nodes| && cache.nodes[leaf].contextLength > 0
      modifies this
      ensures Valid() && timestamps == DropOld(old(timestamps) + [Entry(now, node, leaf)], now - window)
      ensures histogram.Keys <= old(histogram.Keys) + {node}
      ensures forall n :: n in curNumDecode ==>
              curNumDecode[n] == if n == node then decodingLength else Get(old(curNumDecode), n)
      ensures Get(old(sumPrompt), node) >= 0
      ensures node in unshareRatio ==>
              unshareRatio[node] == Ratio(old(sumShare), old(sumPrompt), node, cache.nodes[leaf])
    {
      hide Right, DropOld, Within;
      ghost var lens := Lens(cache.nodes);
      var e, length, own := Entry(now, node, leaf), cache.nodes[leaf].contextLength, |cache.nodes[leaf].key|;
      SumsPositive(lens, timestamps, added, histogram, sumPrompt, numRequests, sumShare, drift, unshareRatio,
          curNumDecode);
      var ratio := Ratio(sumShare, sumPrompt, node, cache.nodes[leaf]);
      AddedRight(lens, timestamps, added, histogram, sumPrompt, numRequests, sumShare, drift, unshareRatio,
          curNumDecode, e, own, ratio, decodingLength);
      timestamps, added := timestamps + [e], added + [own];
      histogram, numRequests, curNumDecode, sumShare, sumPrompt, unshareRatio :=
        histogram[node := Get(histogram, node) + length], numRequests[node := Get(numRequests, node) + 1],
        curNumDecode[node := decodingLength], sumShare[node := Get(sumShare, node) + (length - own)],
        sumPrompt[node := Get(sumPrompt, node) + length], unshareRatio[node := ratio];
      ghost var decode, ratios := curNumDecode, unshareRatio;
      RemoveOldEntries(now);
      WithinAt(curNumDecode, decode);
      WithinAt(unshareRatio, ratios);
    }

    static lemma WithinAt<V>(a: map<nat, V>, b: map<nat, V>)
      requires Within(a, b)
      ensures forall n :: n in a ==> n in b && a[n] == b[n]
    {
    }

    static lemma AddedRight(lens: seq<nat>, log: seq<Entry>, added: seq<int>, h: map<nat, int>, p: map<nat, int>,
        c: map<nat, int>, s: map<nat, int>, drift: map<nat, int>, u: map<nat, real>, d: map<nat, int>,
                            e: Entry, own: int, ratio: real, decode: int)
      requires Right(lens, log, added, h, p, c, s, drift, u, d) && e.leaf < |lens| && lens[e.leaf] > 0
      ensures Right(lens, log + [e], added + [own], h[e.node := Get(h, e.node) + LenOf(lens, e.leaf)],
                    p[e.node := Get(p, e.node) + LenOf(lens, e.leaf)], c[e.node := Get(c, e.node) + 1],
                    s[e.node := Get(s, e.node) + (LenOf(lens, e.leaf) - own)], drift,
                    u[e.node := ratio], d[e.node := decode])
    {
      hide Keyed, Sums, Counts, Logged, Shares;
      AddOne(log, e, lens, h, c);
      AddOne(log, e, lens, p, c);
      SharesAdd(log, added, e, own, lens, s, drift);
      AddKeyed(log, e, u, ratio);
      AddKeyed(log, e, d, decode);
      LoggedOne(log, e, lens);
    }

    /** No sum of prompt tokens is negative, so with one more request the ratio is defined. */
    static lemma SumsPositive(lens: seq<nat>, log: seq<Entry>, added: seq<int>, h: map<nat, int>, p: map<nat, int>,
        c: map<nat, int>, s: map<nat, int>, drift: map<nat, int>, u: map<nat, real>, d: map<nat, int>)
      requires Right(lens, log, added, h, p, c, s, drift, u, d)
      ensures forall n :: Get(p, n) >= 0
    {
      hide Keyed, Counts, Shares, Logged;
    }

    /** The share of a node's prompt tokens that is not shared, with one more request. */
    static function Ratio(share: map<nat, int>, prompt: map<nat, int>, node: nat, leaf: Node): real
      requires Get(prompt, node) >= 0 && leaf.contextLength > 0
    {
      1.0 - (Get(share, node) + (leaf.contextLength - |leaf.key|)) as real
            / (Get(prompt, node) + leaf.contextLength) as real
    }

    /** The ratio is the share of a node's live prompt tokens, the new request's included, that
        their leaves had of their own, but for the drift of the shared ones. */
    static lemma RatioIs(lens: seq<nat>, log: seq<Entry>, added: seq<int>, h: map<nat, int>, p: map<nat, int>,
        c: map<nat, int>, s: map<nat, int>, drift: map<nat, int>, u: map<nat, real>, d: map<nat, int>,
                         e: Entry, leaf: Node)
      requires Right(lens, log, added, h, p, c, s, drift, u, d)
      requires e.leaf < |lens| && lens[e.leaf] == leaf.contextLength > 0
      ensures |added| == |log| && Get(p, e.node) >= 0
      ensures Ratio(s, p, e.node, leaf) * PromptTokens(log + [e], lens, e.node) as real ==
              (OwnSum(log + [e], added + [|leaf.key|], e.node) + Get(drift, e.node)) as real
    {
      hide Right, PromptTokens, OwnSum, Ratio, Get;
      SumsPositive(lens, log, added, h, p, c, s, drift, u, d);
      RatioParts(lens, log, added, h, p, c, s, drift, u, d, e, leaf);
      RatioOf(s, p, e.node, leaf);
    }

    static lemma RatioParts(lens: seq<nat>, log: seq<Entry>, added: seq<int>, h: map<nat, int>, p: map<nat, int>,
        c: map<nat, int>, s: map<nat, int>, drift: map<nat, int>, u: map<nat, real>, d: map<nat, int>,
                            e: Entry, leaf: Node)
      requires Right(lens, log, added, h, p, c, s, drift, u, d)
      requires e.leaf < |lens| && lens[e.leaf] == leaf.contextLength > 0
      ensures |added| == |log|
      ensures var whole := Get(p, e.node) + leaf.contextLength;
              var shared := Get(s, e.node) + (leaf.contextLength - |leaf.key|);
              && PromptTokens(log + [e], lens, e.node) == whole
              && OwnSum(log + [e], added + [|leaf.key|], e.node) + Get(drift, e.node) == whole - shared
    {
      hide Counts, Logged, PromptTokens, ShareTokens, OwnSum, Keyed;
      AddOneOf(log, e, lens, p);
      SharesAdd(log, added, e, |leaf.key|, lens, s, drift);
      OwnOrShared(log + [e], added + [|leaf.key|], lens, e.node);
    }

    static lemma AddOneOf(log: seq<Entry>, e: Entry, lens: seq<nat>, p: map<nat, int>)
      requires Sums(p, log, lens)
      ensures PromptTokens(log + [e], lens, e.node) == Get(p, e.node) + LenOf(lens, e.leaf)
    {
      Append(log, [e], lens, e.node);
      NoneLive(log, lens);
    }

    static lemma RatioOf(s: map<nat, int>, p: map<nat, int>, node: nat, leaf: Node)
      requires Get(p, node) >= 0 && leaf.contextLength > 0
      ensures var whole, shared := Get(p, node) + leaf.contextLength, Get(s, node) + (leaf.contextLength - |leaf.key|);
              Ratio(s, p, node, leaf) * whole as real == (whole - shared) as real
    {
      var whole, shared := Get(p, node) + leaf.contextLength, Get(s, node) + (leaf.contextLength - |leaf.key|);
      var part := shared as real / whole as real;
      assert part * whole as real == shared as real;
      assert (1.0 - part) * whole as real == whole as real - part * whole as real;
    }

    /** Entries older than the window leave from the front; a node's keys leave with its last
        live entry, and none of them is missing then. */
    method RemoveOldEntries(now: int)
      requires Valid()
      modifies this
      ensures Valid() && timestamps == DropOld(old(timestamps), now - window)
      ensures histogram.Keys <= old(histogram.Keys)
      ensures Within(curNumDecode, old(curNumDecode)) && Within(unshareRatio, old(unshareRatio))
    {
      hide Right;
      var start := now - window;
      while timestamps != [] && timestamps[0].time < start
        invariant Valid() && DropOld(timestamps, start) == DropOld(old(timestamps), start)
        invariant histogram.Keys <= old(histogram.Keys)
        invariant Within(curNumDecode, old(curNumDecode)) && Within(unshareRatio, old(unshareRatio))
        decreases |timestamps|
      {
        ExpireFirst();
      }
    }

    /** a is b without some keys. */
    static ghost predicate Within<V>(a: map<nat, V>, b: map<nat, V>) { forall n :: n in a ==> n in b && a[n] == b[n] }

    /** The sum of shared tokens drifts by what the leaf has lost to splits since. */
    method ExpireFirst()
      requires Valid() && timestamps != []
      modifies this
      ensures Valid() && timestamps == old(timestamps)[1..] && |old(added)| > 0 && added == old(added)[1..]
      ensures histogram.Keys <= old(histogram.Keys)
      ensures Within(curNumDecode, old(curNumDecode)) && Within(unshareRatio, old(unshareRatio))
      ensures var e := old(timestamps)[0];
              e.leaf < |cache.nodes| &&
              (e.node in histogram ==>
                  Get(drift, e.node) == old(Get(drift, e.node)) + old(added)[0] - |cache.nodes[e.leaf].key|)
    {
      hide Right;
      ghost var lens := Lens(cache.nodes);
      var e := timestamps[0];
      FirstLeaf(lens, timestamps, added, histogram, sumPrompt, numRequests, sumShare, drift, unshareRatio,
          curNumDecode);
      ExpiredRight(lens, timestamps, added, histogram, sumPrompt, numRequests, sumShare, drift, unshareRatio,
          curNumDecode, |cache.nodes[e.leaf].key|);
      var length, own := cache.nodes[e.leaf].contextLength, |cache.nodes[e.leaf].key|;
      histogram, numRequests, sumShare, sumPrompt :=
        histogram[e.node := histogram[e.node] - length], numRequests[e.node := numRequests[e.node] - 1],
        sumShare[e.node := sumShare[e.node] - (length - own)], sumPrompt[e.node := sumPrompt[e.node] - length];
      timestamps, added, drift := timestamps[1..], added[1..], drift[e.node := Get(drift, e.node) + (added[0] - own)];
      if histogram[e.node] <= 0 { DropKeys(e.node); }
    }

    static lemma FirstLeaf(lens: seq<nat>, log: seq<Entry>, added: seq<int>, h: map<nat, int>, p: map<nat, int>,
        c: map<nat, int>, s: map<nat, int>, drift: map<nat, int>, u: map<nat, real>, d: map<nat, int>)
      requires Right(lens, log, added, h, p, c, s, drift, u, d) && log != []
      ensures log[0].leaf < |lens| && lens[log[0].leaf] > 0 && |added| == |log|
    {
      hide Keyed, Sums, Counts;
    }

    static lemma ExpiredRight(lens: seq<nat>, log: seq<Entry>, added: seq<int>, h: map<nat, int>, p: map<nat, int>,
        c: map<nat, int>, s: map<nat, int>, drift: map<nat, int>, u: map<nat, real>, d: map<nat, int>, own: int)
      requires Right(lens, log, added, h, p, c, s, drift, u, d) && log != [] && |added| == |log|
      ensures var n := log[0].node; n in h && n in p && n in c && n in s && n in u && n in d
      ensures var n, len := log[0].node, LenOf(lens, log[0].leaf);
              var h', p', c', s', d' :=
                  h[n := h[n] - len], p[n := p[n] - len], c[n := c[n] - 1], s[n := s[n] - (len - own)],
                                        drift[n := Get(drift, n) + (added[0] - own)];
              if h'[n] <= 0 then Right(lens, log[1..], added[1..], h' - {n}, p' - {n}, c' - {n}, s' - {n}, d' - {n},
                  u - {n}, d - {n})
              else Right(lens, log[1..], added[1..], h', p', c', s', d', u, d)
    {
      hide Keyed, Sums, Counts, Logged, Shares, Live;
      var n := log[0].node;
      ExpireOne(log, lens, h, c);
      ExpireOne(log, lens, p, c);
      SumsAgree(log, lens, h, p, n);
      SharesExpire(log, added, own, lens, s, drift);
      ExpireKeyed(log, u, 0.0);
      ExpireKeyed(log, d, 0);
    }

    method DropKeys(n: nat)
      requires n in histogram && n in numRequests && n in unshareRatio && n in sumShare && n in sumPrompt
      requires n in curNumDecode
      modifies this`histogram, this`numRequests, this`unshareRatio, this`sumShare, this`sumPrompt, this`curNumDecode,
          this`drift
      ensures histogram == old(histogram) - {n} && numRequests == old(numRequests) - {n}
      ensures unshareRatio == old(unshareRatio) - {n}
      ensures sumShare == old(sumShare) - {n} && sumPrompt == old(sumPrompt) - {n}
      ensures curNumDecode == old(curNumDecode) - {n}
      ensures drift == old(drift) - {n}
    {
      histogram := histogram - {n};
      numRequests := numRequests - {n};
      unshareRatio := unshareRatio - {n};
      sumShare := sumShare - {n};
      sumPrompt := sumPrompt - {n};
      curNumDecode := curNumDecode - {n};
      drift := drift - {n};
    }

    /** Hands a node's entries and sums over to a node that has none. */
    method ReplaceOldNodeWithNew(a: nat, b: nat)
      requires Valid() && a != b && (a in histogram ==> b !in histogram)
      modifies this
      ensures Valid() && timestamps == if a in old(histogram) then Rename(old(timestamps), a, b) else old(timestamps)
      ensures histogram.Keys == if a in old(histogram) then old(histogram.Keys) - {a} + {b} else old(histogram.Keys)
    {
      hide Right, Rename, MoveDrift, Move;
      if a in histogram {
        ghost var lens := Lens(cache.nodes);
        SameKeys(lens, timestamps, added, histogram, sumPrompt, numRequests, sumShare, drift, unshareRatio,
            curNumDecode);
        MovedRight(lens, timestamps, added, histogram, sumPrompt, numRequests, sumShare, drift, unshareRatio,
            curNumDecode, a, b);
        MoveKeys(histogram, a, b);
        histogram, numRequests, unshareRatio, sumShare, sumPrompt, curNumDecode :=
          Move(histogram, a, b), Move(numRequests, a, b), Move(unshareRatio, a, b), Move(sumShare, a, b),
          Move(sumPrompt, a, b), Move(curNumDecode, a, b);
        timestamps, drift := Rename(timestamps, a, b), MoveDrift(drift, a, b);
      }
    }

    static lemma MovedRight(lens: seq<nat>, log: seq<Entry>, added: seq<int>, h: map<nat, int>, p: map<nat, int>,
        c: map<nat, int>, s: map<nat, int>, drift: map<nat, int>, u: map<nat, real>, d: map<nat, int>, a: nat, b: nat)
      requires Right(lens, log, added, h, p, c, s, drift, u, d) && a != b && a in h && b !in h
      requires h.Keys == p.Keys == c.Keys == s.Keys == u.Keys == d.Keys
      ensures Right(lens, Rename(log, a, b), added, Move(h, a, b), Move(p, a, b), Move(c, a, b),
                    Move(s, a, b), MoveDrift(drift, a, b), Move(u, a, b), Move(d, a, b))
    {
      hide Keyed, Sums, Counts, Logged, Shares, Rename, MoveDrift, Move;
      SharesMove(log, added, lens, s, drift, a, b);
      MoveExact(log, lens, h, a, b);
      MoveExact(log, lens, p, a, b);
      MoveCounts(log, c, a, b);
      MoveKeyed(log, u, a, b);
      MoveKeyed(log, d, a, b);
      LoggedRename(log, lens, a, b);
    }

    static lemma MoveKeys(m: map<nat, int>, a: nat, b: nat)
      requires a in m
      ensures Move(m, a, b).Keys == m.Keys - {a} + {b}
    {
    }

    static lemma LoggedOne(log: seq<Entry>, e: Entry, lens: seq<nat>)
      requires Logged(log, lens) && e.leaf < |lens| && lens[e.leaf] > 0
      ensures Logged(log + [e], lens)
    {
    }

    static lemma LoggedRename(log: seq<Entry>, lens: seq<nat>, a: nat, b: nat)
      requires Logged(log, lens)
      ensures Logged(Rename(log, a, b), lens)
    {
    }

    static lemma SumsAgree(log: seq<Entry>, lens: seq<nat>, a: map<nat, int>, b: map<nat, int>, n: nat)
      requires Sums(a, log, lens) && Sums(b, log, lens) && n in a
      ensures n in b && a[n] == b[n]
    {
    }

    static lemma SameKeys(lens: seq<nat>, log: seq<Entry>, added: seq<int>, h: map<nat, int>, p: map<nat, int>,
        c: map<nat, int>, s: map<nat, int>, drift: map<nat, int>, u: map<nat, real>, d: map<nat, int>)
      requires Right(lens, log, added, h, p, c, s, drift, u, d)
      ensures h.Keys == p.Keys == c.Keys == s.Keys == u.Keys == d.Keys
    {
      hide Logged;
    }
  }
}
