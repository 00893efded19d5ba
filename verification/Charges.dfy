/** What a replica's budget is charged with, along every run. */
module Charges {
  import opened Common
  import opened Requests
  import opened Replicas
  import opened Dispatch
  import opened Runs

  /** One of the first i events accepts x at replica r, and `tokens` is what r's cache leaves
      to compute of x at that event. */
  ghost predicate ChargedAt(ws: seq<World>, es: seq<(Event, Oracle)>, i: nat, r: int, x: Request, tokens: int)
    requires i <= |es| < |ws|
  {
    exists k :: 0 <= k < i && es[k].0 == Accepted(x) && At(ws[k], x, Posted, r) && tokens == es[k].1.recompute(r, x)
  }

  /** A step changes the charge of a pending request only by accepting it. */
  lemma StepCharges(cfg: Config, o: Oracle, w: World, e: Event, r: int, x: Request)
    requires Core(cfg, w) && Enabled(w, e) && 0 <= r < cfg.n
    requires x in Step(cfg, o, w, e).reps[r].pending
    ensures var u := Step(cfg, o, w, e);
            || (e == Accepted(x) && At(w, x, Posted, r) && x in u.ledger && u.ledger[x] == o.recompute(r, x))
            || (x in w.reps[r].pending && (x in w.ledger ==> x in u.ledger && u.ledger[x] == w.ledger[x]))
  {
    hide Schedule, QueuesOk, Remove;
    assert RepOk(cfg, w, r);
    var u := Step(cfg, o, w, e);
    match e
    case Arrive(req) => var moved := ScheduleOk(cfg, o, w, Some(req));
    case Callback(req) =>
      var moved := ScheduleOk(cfg, o, w.(tasks := w.tasks - {req}, finished := w.finished + {req}), None);
    case Accepted(req) =>
      assert Places(w, req) <= 1;
      assert RepOk(cfg, w, w.tasks[req].replica);
    case FirstToken(req) =>
      assert RepOk(cfg, w, w.tasks[req].replica);
      RemoveFacts(w.reps[w.tasks[req].replica].pending, req, w.ledger);
    case Fail(req) =>
      assert RepOk(cfg, w, w.tasks[req].replica);
      RemoveFacts(w.reps[w.tasks[req].replica].pending, req, w.ledger);
    case Finish(_) =>
    case Silent(_) =>
  }

  /** Every pending request is charged with what its replica's cache left to compute of it when
      it was accepted there. */
  lemma {:induction false} PendingCharged(cfg: Config, ws: seq<World>, es: seq<(Event, Oracle)>, i: nat, r: int,
      x: Request)
    requires IsRun(cfg, ws, es) && i < |ws| && 0 <= r < cfg.n
    requires Sized(cfg, ws[i]) && x in ws[i].reps[r].pending
    ensures x in ws[i].ledger && ChargedAt(ws, es, i, r, x, ws[i].ledger[x])
  {
    hide Step, Core, At;
    if i > 0 {
      RunCore(cfg, ws, es, i - 1);
      StepCharges(cfg, es[i - 1].1, ws[i - 1], es[i - 1].0, r, x);
      assert ws[i] == Step(cfg, es[i - 1].1, ws[i - 1], es[i - 1].0);
      if x in ws[i - 1].reps[r].pending { PendingCharged(cfg, ws, es, i - 1, r, x); }
    }
  }

  /** So the budget is the SLO budget minus those lengths, and reported pending tokens are
      their sum, when caches report no negative lengths. */
  lemma RunBudget(cfg: Config, ws: seq<World>, es: seq<(Event, Oracle)>, i: nat, r: int)
    requires IsRun(cfg, ws, es) && i < |ws| && 0 <= r < cfg.n
    ensures Sized(cfg, ws[i]) && Distinct(ws[i].reps[r].pending)
    ensures forall x :: x in ws[i].reps[r].pending ==> x in ws[i].ledger && ChargedAt(ws, es, i, r, x, ws[i].ledger[x])
    ensures ws[i].reps[r].budget == cfg.slo - SumCharges(ws[i].reps[r].pending, ws[i].ledger)
    ensures (forall k :: 0 <= k < |es| ==> OracleOk(es[k].1)) ==>
              PendingTokens(cfg.slo, ws[i].reps[r]) == SumCharges(ws[i].reps[r].pending, ws[i].ledger)
  {
    hide Step, Start, IsRun, ChargedAt;
    RunCore(cfg, ws, es, i);
    RunLength(cfg, ws, es);
    assert RepOk(cfg, ws[i], r);
    var rep, led := ws[i].reps[r], ws[i].ledger;
    forall x | x in rep.pending ensures x in led && ChargedAt(ws, es, i, r, x, led[x]) {
      PendingCharged(cfg, ws, es, i, r, x);
    }
    if forall k :: 0 <= k < |es| ==> OracleOk(es[k].1) {
      forall x | x in rep.pending ensures Charge(led, x) >= 0 {
        ChargeAtLeast(ws, es, i, r, x, led[x]);
      }
      PendingTokensMeaning(cfg.slo, rep, led);
    }
  }

  lemma RunLength(cfg: Config, ws: seq<World>, es: seq<(Event, Oracle)>)
    requires IsRun(cfg, ws, es)
    ensures |ws| == |es| + 1
  {
  }

  lemma ChargeAtLeast(ws: seq<World>, es: seq<(Event, Oracle)>, i: nat, r: int, x: Request, tokens: int)
    requires i <= |es| < |ws| && ChargedAt(ws, es, i, r, x, tokens)
    requires forall k :: 0 <= k < |es| ==> OracleOk(es[k].1)
    ensures tokens >= 0
  {
    var k :| 0 <= k < i && es[k].0 == Accepted(x) && At(ws[k], x, Posted, r) && tokens == es[k].1.recompute(r, x);
    assert OracleOk(es[k].1);
  }
}
