/** Predicted times: a number of tokens times the time per prefill token, rounded to four
    digits in some places and not in others. */
module Latency {
  /** x rounded to a whole number, to the even one halfway. */
  function Rounded(x: real): int {
    var d := x - x.Floor as real;
    if d < 0.5 || (d == 0.5 && x.Floor % 2 == 0) then x.Floor else x.Floor + 1
  }

  /** round(tokens * tpot, 4), counted in ten-thousandths of a second. */
  function Ticks(tpot: real, tokens: int): int { Rounded(tokens as real * tpot * 10000.0) }

  /** target_ttft - source_ttft: the target's time is rounded, the source's is not. */
  function Cost(tpot: real, target: int, source: int): real {
    Ticks(tpot, target) as real / 10000.0 - source as real * tpot
  }

  lemma RoundedNear(x: real)
    ensures x - 0.5 <= Rounded(x) as real <= x + 0.5
  {
  }

  /** Rounding gives the nearest whole number, and halfway between two the even one. */
  lemma RoundedIs(x: real, k: int)
    ensures Rounded(x) == k <==>
              k as real - 0.5 < x < k as real + 0.5 || (k % 2 == 0 && (x == k as real - 0.5 || x == k as real + 0.5))
  {
    var f := x.Floor;
    assert f as real <= x < f as real + 1.0;
    if k < f { assert k as real + 1.0 <= f as real; }
    if k > f + 1 { assert k as real >= f as real + 2.0; }
  }

  lemma RoundedMono(x: real, y: real)
    requires x <= y
    ensures Rounded(x) <= Rounded(y)
  {
    assert x.Floor <= y.Floor;
  }

  lemma TimesMono(tpot: real, a: int, b: int)
    requires tpot > 0.0 && a <= b
    ensures a as real * tpot <= b as real * tpot
    ensures a < b ==> a as real * tpot + tpot <= b as real * tpot
  {
    assert b as real * tpot - a as real * tpot == (b - a) as real * tpot;
    if a < b {
      assert (b - a) as real * tpot == tpot + (b - a - 1) as real * tpot;
    }
  }

  lemma TicksMono(tpot: real, a: int, b: int)
    requires tpot > 0.0 && a <= b
    ensures Ticks(tpot, a) <= Ticks(tpot, b)
  {
    hide Rounded;
    TimesMono(tpot, a, b);
    var x, y := a as real * tpot, b as real * tpot;
    RoundedMono(x * 10000.0, y * 10000.0);
  }

  lemma CostOrder(x: int, y: int, s: real, t: real)
    requires x <= y && s >= t
    ensures x as real / 10000.0 - s <= y as real / 10000.0 - t
  {
  }

  /** A longer wait at the target and a shorter one at the source never lower the cost. */
  lemma CostMono(tpot: real, target: int, source: int, target': int, source': int)
    requires tpot > 0.0 && target <= target' && source >= source'
    ensures Cost(tpot, target, source) <= Cost(tpot, target', source')
  {
    hide Ticks;
    TicksMono(tpot, target, target');
    TimesMono(tpot, source', source);
    CostOrder(Ticks(tpot, target), Ticks(tpot, target'), source as real * tpot, source' as real * tpot);
  }

  /** The two times are equal, but the target's is rounded down. */
  predicate Draw(tpot: real, target: int, source: int) {
    target == source && Ticks(tpot, target) as real < target as real * tpot * 10000.0
  }

  /** With more than half a ten-thousandth of a second per token the cost is negative exactly
      when the target's wait is shorter, or when it is equal and rounded down. */
  lemma CostSign(tpot: real, target: int, source: int)
    requires tpot > 0.00005
    ensures Cost(tpot, target, source) < 0.0 <==> target < source || Draw(tpot, target, source)
  {
    hide Rounded;
    RoundedNear(target as real * tpot * 10000.0);
    if target < source { TimesMono(tpot, target, source); }
    if source < target { TimesMono(tpot, source, target); }
  }

  /** A request can be moved for nothing: at 0.000127 seconds per token any wait of one token
      is worth moving away from to another wait of one token. */
  lemma DrawMoves()
    ensures Cost(0.000127, 1, 1) < 0.0 && Draw(0.000127, 1, 1)
  {
    assert 1 as real * 0.000127 * 10000.0 == 1.27;
    assert Rounded(1.27) == 1;
  }
}
