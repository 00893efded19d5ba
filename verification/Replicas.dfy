/** A replica's prefill budget and request lists: the value-level transitions, the class, and
    what the budget means. */
module Replicas {
  import opened Common
  import opened Requests
  import opened Recency
  import opened HashChain
  import KvCache

  /** `actual` is the `_actual_num_prefill_tokens` of every request that has been added
      somewhere; it belongs to the request, so all replicas share it. */
  type Ledger = map<Request, int>

  datatype Rep = Rep(budget: int, pending: seq<Request>, running: seq<Request>)

  /** list.remove: the first occurrence goes. */
  function Remove(s: seq<Request>, x: Request): seq<Request> {
    if x in s then var i := IndexOf(s, x); s[..i] + s[i + 1..] else s
  }

  function Charge(led: Ledger, x: Request): int { if x in led then led[x] else 0 }

  /** `add_request` */
  function Added(rep: Rep, led: Ledger, req: Request, tokens: int): (Rep, Ledger) {
    if req in rep.pending then (rep, led)
    else (rep.(budget := rep.budget - tokens, pending := rep.pending + [req]), led[req := tokens])
  }

  /** `complete_request_prefill` */
  function Prefilled(rep: Rep, led: Ledger, req: Request): Rep {
    if req !in rep.pending then rep
    else Rep(rep.budget + Charge(led, req), Remove(rep.pending, req),
             if req in rep.running then rep.running else rep.running + [req])
  }

  /** `complete_request_decode` */
  function Decoded(rep: Rep, req: Request): Rep { rep.(running := Remove(rep.running, req)) }

  /** `abort_request` */
  function Aborted(rep: Rep, led: Ledger, req: Request): Rep {
    var back := if req in rep.pending then Charge(led, req) else 0;
    Rep(rep.budget + back, Remove(rep.pending, req), Remove(rep.running, req))
  }

  function SumCharges(s: seq<Request>, led: Ledger): int {
    if s == [] then 0 else Charge(led, s[0]) + SumCharges(s[1..], led)
  }

  /** `get_num_actual_pending_tokens` */
  function PendingTokens(slo: int, rep: Rep): int { if slo - rep.budget > 0 then slo - rep.budget else 0 }

  /** The equality the code only logs, and a duplicate-free pending list. */
  ghost predicate Balanced(slo: int, rep: Rep, led: Ledger) {
    && Distinct(rep.pending) && Distinct(rep.running)
    && rep.budget == slo - SumCharges(rep.pending, led)
  }

  lemma {:induction false} ChargesAppend(a: seq<Request>, b: seq<Request>, led: Ledger)
    ensures SumCharges(a + b, led) == SumCharges(a, led) + SumCharges(b, led)
  {
    if a == [] {
      assert a + b == b;
    } else {
      ChargesAppend(a[1..], b, led);
      assert (a + b)[1..] == a[1..] + b;
    }
  }

  lemma RemoveFacts(s: seq<Request>, x: Request, led: Ledger)
    requires Distinct(s)
    ensures Distinct(Remove(s, x))
    ensures SumCharges(Remove(s, x), led) == SumCharges(s, led) - if x in s then Charge(led, x) else 0
    ensures forall y :: y in Remove(s, x) <==> y in s && y != x
  {
    if x in s {
      var i := IndexOf(s, x);
      var a, b := s[..i], s[i + 1..];
      assert s == a + [x] + b;
      ChargesAppend(a, b, led);
      ChargesAppend(a + [x], b, led);
      ChargesAppend(a, [x], led);
      assert forall j :: 0 <= j < i ==> s[j] != x;
      assert forall j :: i < j < |s| ==> s[j] != x;
    }
  }

  lemma {:induction false} ChargesFrame(s: seq<Request>, led: Ledger, x: Request, tokens: int)
    requires x !in s
    ensures SumCharges(s, led[x := tokens]) == SumCharges(s, led)
  {
    if s != [] {
      assert s[0] in s;
      ChargesFrame(s[1..], led, x, tokens);
    }
  }

  lemma AddKeeps(slo: int, rep: Rep, led: Ledger, req: Request, tokens: int)
    requires Balanced(slo, rep, led)
    ensures var (r, l) := Added(rep, led, req, tokens); Balanced(slo, r, l)
  {
    if req !in rep.pending {
      ChargesFrame(rep.pending, led, req, tokens);
      ChargesAppend(rep.pending, [req], led[req := tokens]);
    }
  }

  lemma PrefillKeeps(slo: int, rep: Rep, led: Ledger, req: Request)
    requires Balanced(slo, rep, led)
    ensures Balanced(slo, Prefilled(rep, led, req), led)
  {
    hide Remove;
    RemoveFacts(rep.pending, req, led);
    assert req !in rep.running ==> Distinct(rep.running + [req]);
  }

  lemma DecodeKeeps(slo: int, rep: Rep, led: Ledger, req: Request)
    requires Balanced(slo, rep, led)
    ensures Balanced(slo, Decoded(rep, req), led)
  {
    RemoveFacts(rep.running, req, led);
  }

  lemma AbortKeeps(slo: int, rep: Rep, led: Ledger, req: Request)
    requires Balanced(slo, rep, led)
    ensures Balanced(slo, Aborted(rep, led, req), led)
  {
    RemoveFacts(rep.pending, req, led);
    RemoveFacts(rep.running, req, led);
  }

  /** Exactly when a request added on another replica leaves this replica's budget right: it
      is not pending here too, or is charged the same on both. */
  lemma AddElsewhere(slo: int, rep: Rep, led: Ledger, req: Request, tokens: int)
    requires Balanced(slo, rep, led)
    ensures Balanced(slo, rep, led[req := tokens]) <==> req !in rep.pending || tokens == Charge(led, req)
  {
    if req in rep.pending {
      RemoveFacts(rep.pending, req, led);
      RemoveFacts(rep.pending, req, led[req := tokens]);
      ChargesFrame(Remove(rep.pending, req), led, req, tokens);
    } else {
      ChargesFrame(rep.pending, led, req, tokens);
    }
  }

  /** With the budget right, the reported pending tokens are the recorded prefill lengths of
      the pending requests, cut off at 0. */
  lemma PendingTokensMeaning(slo: int, rep: Rep, led: Ledger)
    requires Balanced(slo, rep, led) && forall x :: x in rep.pending ==> Charge(led, x) >= 0
    ensures PendingTokens(slo, rep) == SumCharges(rep.pending, led)
    ensures rep.pending == [] ==> rep.budget == slo
  {
    ChargesNonNegative(rep.pending, led);
  }

  lemma {:induction false} ChargesNonNegative(s: seq<Request>, led: Ledger)
    requires forall x :: x in s ==> Charge(led, x) >= 0
    ensures SumCharges(s, led) >= 0
  {
    if s != [] {
      assert s[0] in s;
      ChargesNonNegative(s[1..], led);
    }
  }

  // ---------------------------------------------------------------- the mutable replica

  /** The mutable attribute of the request objects, shared by the replicas. */
  class RequestLedger {
    var actual: Ledger
    constructor ()
      ensures actual == map[]
    {
      actual := map[];
    }
  }

  class Replica {
    const slo: int
    const ledger: RequestLedger
    const cache: KvCache.PrefixKVCacheMgr
    var currentBudget: int
    var pending: seq<Request>
    var running: seq<Request>

    function Abs(): Rep
      reads this
    {
      Rep(currentBudget, pending, running)
    }

    ghost predicate Valid()
      reads this, ledger, cache, cache.lru
    {
      Balanced(slo, Abs(), ledger.actual) && cache.Valid()
    }

    constructor (slo: int, ledger: RequestLedger, cache: KvCache.PrefixKVCacheMgr)
      requires cache.Valid()
      ensures Valid() && Abs() == Rep(slo, [], [])
      ensures this.slo == slo && this.ledger == ledger && this.cache == cache
    {
      this.slo, this.ledger, this.cache := slo, ledger, cache;
      currentBudget, pending, running := slo, [], [];
    }

    /** With the budget right, the recorded prefill lengths of the pending requests. */
    function GetNumActualPendingTokens(): (tokens: int)
      reads this, ledger
      ensures tokens >= 0
      ensures Balanced(slo, Abs(), ledger.actual) && (forall x :: x in pending ==> Charge(ledger.actual, x) >= 0) ==>
                tokens == SumCharges(pending, ledger.actual)
    {
      ghost var rep, led := Abs(), ledger.actual;
      assert Balanced(slo, rep, led) && (forall x :: x in rep.pending ==> Charge(led, x) >= 0) ==>
          PendingTokens(slo, rep) == SumCharges(rep.pending, led) by {
        if Balanced(slo, rep, led) && (forall x :: x in rep.pending ==> Charge(led, x) >= 0) {
          PendingTokensMeaning(slo, rep, led);
        }
      }
      PendingTokens(slo, Abs())
    }

    /** Charges the tokens its cache would have to recompute now. */
    method AddRequest(req: Request) returns (success: bool)
      requires Valid()
      modifies this`currentBudget, this`pending, ledger
      ensures Valid() && success == (req !in old(pending))
      ensures var tokens := RecomputeLen(cache.hash, cache.blockSize, cache.lru.order, req.inputIds);
              (Abs(), ledger.actual) == Added(old(Abs()), old(ledger.actual), req, tokens)
    {
      success := false;
      if req !in pending {
        var tokens := cache.GetNumRecomputeTokenIds(req.inputIds);
        AddKeeps(slo, Abs(), ledger.actual, req, tokens);
        ledger.actual := ledger.actual[req := tokens];
        currentBudget := currentBudget - tokens;
        pending := pending + [req];
        success := true;
      }
    }

    /** Saves the prompt, then moves the request from pending to running and returns its
        charge. A KeyError of the cache comes before, and instead of, the second part. */
    method CompleteRequestPrefill(req: Request) returns (raised: bool, success: bool)
      requires Valid()
      modifies this, cache, cache.lru
      ensures Valid()
      ensures var o := TouchAll(cache.numBlocks, old(cache.Contents()),
              Chain(cache.hash, cache.blockSize, None, req.inputIds));
              raised == o.Full? && cache.Contents() == o.store
      ensures Abs() == if raised then old(Abs()) else Prefilled(old(Abs()), ledger.actual, req)
      ensures success == (!raised && req in old(pending))
    {
      success := false;
      var saved;
      raised, saved := cache.Save(req.inputIds);
      if raised { return; }
      PrefillKeeps(slo, Abs(), ledger.actual, req);
      if req in pending {
        currentBudget := currentBudget + Charge(ledger.actual, req);
        pending := Remove(pending, req);
        if req !in running { running := running + [req]; }
        success := true;
      }
    }

    /** Takes the request off the running list, raised or not, and saves prompt and output. */
    method CompleteRequestDecode(req: Request, outputIds: seq<Token>) returns (raised: bool)
      requires Valid()
      modifies this, cache, cache.lru
      ensures Valid() && Abs() == Decoded(old(Abs()), req)
      ensures var o := TouchAll(cache.numBlocks, old(cache.Contents()),
              Chain(cache.hash, cache.blockSize, None, req.inputIds + outputIds));
              raised == o.Full? && cache.Contents() == o.store
    {
      DecodeKeeps(slo, Abs(), ledger.actual, req);
      if req in running { running := Remove(running, req); }
      var saved;
      raised, saved := cache.Save(req.inputIds + outputIds);
    }

    method AbortRequest(req: Request) returns (res: bool)
      requires Valid()
      modifies this
      ensures Valid() && Abs() == Aborted(old(Abs()), ledger.actual, req)
      ensures res == (req in old(pending) || req in old(running))
    {
      AbortKeeps(slo, Abs(), ledger.actual, req);
      res := false;
      if req in pending {
        currentBudget := currentBudget + Charge(ledger.actual, req);
        pending := Remove(pending, req);
        res := true;
      }
      if req in running {
        running := Remove(running, req);
        res := true;
      }
    }
  }
}
