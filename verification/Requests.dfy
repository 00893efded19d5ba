/** Requests and the entries of the global priority queues. */
module Requests {
  /** The fields a scheduler reads and never writes. `session` is the routing part of
      `_hash_session_id`; `arrived` is the arrival instant in clock ticks. */
  datatype Request = Request(id: nat, inputIds: seq<int>, numPrefill: int, arrived: int, session: int)

  /** (-prefix_cache_hit_len, request._arrived_at, request) */
  datatype Item = Item(neg: int, arrived: int, req: Request)

  function ItemFor(req: Request, hit: int): Item { Item(-hit, req.arrived, req) }

  /** Tuple order on the first two components. Two requests with equal hit length and equal
      arrival would make Python compare the requests themselves, which raises. */
  predicate Less(a: Item, b: Item) { a.neg < b.neg || (a.neg == b.neg && a.arrived < b.arrived) }

  predicate Le(a: Item, b: Item) { !Less(b, a) }

  /** `_get_request_actual_prefill_tokens` */
  function Tokens(it: Item): int { it.req.numPrefill + it.neg }

  function InputLen(it: Item): int { |it.req.inputIds| }

  /** `_recount_pending_tokens` */
  function SumTokens(s: seq<Item>): int { if s == [] then 0 else Tokens(s[0]) + SumTokens(s[1..]) }

  function SumInputs(s: seq<Item>): int { if s == [] then 0 else InputLen(s[0]) + SumInputs(s[1..]) }

  /** The tokens of the entries that are served before x. */
  function TokensBefore(s: seq<Item>, x: Item): int {
    if s == [] then 0 else (if Less(s[0], x) then Tokens(s[0]) else 0) + TokensBefore(s[1..], x)
  }

  lemma {:induction false} SumsAppend(a: seq<Item>, b: seq<Item>, x: Item)
    ensures SumTokens(a + b) == SumTokens(a) + SumTokens(b)
    ensures SumInputs(a + b) == SumInputs(a) + SumInputs(b)
    ensures TokensBefore(a + b, x) == TokensBefore(a, x) + TokensBefore(b, x)
  {
    if a == [] {
      assert a + b == b;
    } else {
      SumsAppend(a[1..], b, x);
      assert (a + b)[1..] == a[1..] + b;
    }
  }

  lemma SumsRemove(s: seq<Item>, i: nat, x: Item)
    requires i < |s|
    ensures var r := s[..i] + s[i + 1..];
            && SumTokens(s) == Tokens(s[i]) + SumTokens(r)
            && SumInputs(s) == InputLen(s[i]) + SumInputs(r)
            && TokensBefore(s, x) == (if Less(s[i], x) then Tokens(s[i]) else 0) + TokensBefore(r, x)
  {
    SumsAppend(s[..i], s[i + 1..], x);
    SumsAppend(s[..i], s[i..], x);
    assert s == s[..i] + s[i..];
    assert s[i..][1..] == s[i + 1..];
  }

  lemma MultisetRemove<T>(s: seq<T>, i: nat)
    requires i < |s|
    ensures multiset(s[..i] + s[i + 1..]) == multiset(s) - multiset{s[i]}
  {
    assert s == s[..i] + [s[i]] + s[i + 1..];
  }

  /** All three sums depend on the entries only, not on their order. */
  lemma {:induction false} SumsPermuted(a: seq<Item>, b: seq<Item>, x: Item)
    requires multiset(a) == multiset(b)
    ensures SumTokens(a) == SumTokens(b) && SumInputs(a) == SumInputs(b)
    ensures TokensBefore(a, x) == TokensBefore(b, x)
  {
    if a == [] {
      assert |multiset(b)| == 0;
    } else {
      assert a[0] in multiset(a);
      var i := PositionOf(b, a[0]);
      var a', b' := a[1..], b[..i] + b[i + 1..];
      assert multiset(a') == multiset(b') by {
        assert a == [a[0]] + a';
        MultisetRemove(b, i);
      }
      SumsPermuted(a', b', x);
      SumsRemove(b, i, x);
    }
  }

  lemma PositionOf<T>(s: seq<T>, x: T) returns (i: nat)
    requires x in multiset(s)
    ensures i < |s| && s[i] == x
  {
    assert x in s;
    i :| 0 <= i < |s| && s[i] == x;
  }
}
