/** The log behind the sliding-window histogram, and the sums a histogram must equal. */
module WindowLog {
  /** (timestamp, important node, leaf node) */
  datatype Entry = Entry(time: int, node: nat, leaf: nat)

  /** Live entries of a node. */
  function Live(log: seq<Entry>, node: nat): nat {
    if log == [] then 0 else (if log[0].node == node then 1 else 0) + Live(log[1..], node)
  }

  function LenOf(lens: seq<nat>, leaf: nat): nat { if leaf < |lens| then lens[leaf] else 0 }

  /** Prompt tokens of a node's live entries; lens are the context lengths of the tree nodes. */
  function PromptTokens(log: seq<Entry>, lens: seq<nat>, node: nat): nat {
    if log == [] then 0
    else (if log[0].node == node then LenOf(lens, log[0].leaf) else 0) + PromptTokens(log[1..], lens, node)
  }

  /** Every logged prompt is a non-empty path of the tree. */
  ghost predicate Logged(log: seq<Entry>, lens: seq<nat>) {
    forall i :: 0 <= i < |log| ==> log[i].leaf < |lens| && lens[log[i].leaf] > 0
  }

  /** One map agrees with the log: its keys are the nodes with live entries. */
  ghost predicate Keyed<V>(m: map<nat, V>, log: seq<Entry>) { forall n :: n in m <==> Live(log, n) > 0 }

  ghost predicate Counts(m: map<nat, int>, log: seq<Entry>) {
    Keyed(m, log) && forall n :: n in m ==> m[n] == Live(log, n)
  }

  ghost predicate Sums(m: map<nat, int>, log: seq<Entry>, lens: seq<nat>) {
    Keyed(m, log) && forall n :: n in m ==> m[n] == PromptTokens(log, lens, n)
  }

  function Get(m: map<nat, int>, n: nat): int { if n in m then m[n] else 0 }

  lemma {:induction false} Append(a: seq<Entry>, b: seq<Entry>, lens: seq<nat>, n: nat)
    ensures Live(a + b, n) == Live(a, n) + Live(b, n)
    ensures PromptTokens(a + b, lens, n) == PromptTokens(a, lens, n) + PromptTokens(b, lens, n)
  {
    if a == [] {
      assert a + b == b;
    } else {
      Append(a[1..], b, lens, n);
      assert (a + b)[1..] == a[1..] + b;
    }
  }

  /** A node has live entries exactly when its prompt tokens are not 0. */
  lemma {:induction false} LiveTokens(log: seq<Entry>, lens: seq<nat>, n: nat)
    requires Logged(log, lens)
    ensures Live(log, n) > 0 <==> PromptTokens(log, lens, n) > 0
  {
    if log != [] {
      assert Logged(log[1..], lens) by { assert forall i :: 0 <= i < |log[1..]| ==> log[1..][i] == log[i + 1]; }
      LiveTokens(log[1..], lens, n);
    }
  }

  lemma AddOne(log: seq<Entry>, e: Entry, lens: seq<nat>, h: map<nat, int>, c: map<nat, int>)
    requires Sums(h, log, lens) && Counts(c, log)
    ensures Sums(h[e.node := Get(h, e.node) + LenOf(lens, e.leaf)], log + [e], lens)
    ensures Counts(c[e.node := Get(c, e.node) + 1], log + [e])
  {
    forall n
      ensures Live(log + [e], n) == Live(log, n) + if n == e.node then 1 else 0
      ensures PromptTokens(log + [e], lens, n) == PromptTokens(log, lens, n) +
              if n == e.node then LenOf(lens, e.leaf) else 0
    {
      Append(log, [e], lens, n);
    }
    NoneLive(log, lens);
  }

  lemma {:induction false} NoneLive(log: seq<Entry>, lens: seq<nat>)
    ensures forall n :: Live(log, n) == 0 ==> PromptTokens(log, lens, n) == 0
  {
    if log != [] { NoneLive(log[1..], lens); }
  }

  /** Expiring the first entry, and with its last live entry a node's keys, keeps both maps. */
  lemma ExpireOne(log: seq<Entry>, lens: seq<nat>, h: map<nat, int>, c: map<nat, int>)
    requires log != [] && Logged(log, lens) && Sums(h, log, lens) && Counts(c, log)
    ensures var e := log[0]; e.node in h && e.node in c && LenOf(lens, e.leaf) > 0 && Logged(log[1..], lens)
    ensures var e := log[0];
            var h', c' := h[e.node := h[e.node] - LenOf(lens, e.leaf)], c[e.node := c[e.node] - 1];
            if h'[e.node] <= 0 then Live(log[1..], e.node) == 0 && Sums(h' - {e.node}, log[1..], lens) &&
                Counts(c' - {e.node}, log[1..])
            else Live(log[1..], e.node) > 0 && Sums(h', log[1..], lens) && Counts(c', log[1..])
  {
    var e := log[0];
    assert log[0].leaf < |lens|;
    assert Logged(log[1..], lens) by { assert forall i :: 0 <= i < |log[1..]| ==> log[1..][i] == log[i + 1]; }
    LiveTokens(log[1..], lens, e.node);
    assert Live(log, e.node) == 1 + Live(log[1..], e.node);
    forall n | n != e.node
      ensures Live(log, n) == Live(log[1..], n) && PromptTokens(log, lens, n) == PromptTokens(log[1..], lens, n) {}
  }

  lemma AddKeyed<V>(log: seq<Entry>, e: Entry, m: map<nat, V>, v: V)
    requires Keyed(m, log)
    ensures Keyed(m[e.node := v], log + [e])
  {
    forall n ensures Live(log + [e], n) == Live(log, n) + if n == e.node then 1 else 0 { Append(log, [e], [], n); }
  }

  lemma ExpireKeyed<V>(log: seq<Entry>, m: map<nat, V>, v: V)
    requires log != [] && Keyed(m, log)
    ensures log[0].node in m
    ensures Live(log[1..], log[0].node) > 0 ==> Keyed(m, log[1..]) && Keyed(m[log[0].node := v], log[1..])
    ensures Live(log[1..], log[0].node) == 0 ==>
              Keyed(m - {log[0].node}, log[1..]) && Keyed(m[log[0].node := v] - {log[0].node}, log[1..])
  {
    forall n | n != log[0].node ensures Live(log, n) == Live(log[1..], n) {}
  }

  // ---------------------------------------------------------------- the window

  /** Pops entries from the front as long as they are older than start. */
  function DropOld(log: seq<Entry>, start: int): seq<Entry> {
    if log == [] || log[0].time >= start then log else DropOld(log[1..], start)
  }

  /** An entry inside the window was logged before one that is outside. */
  ghost predicate OutOfOrder(log: seq<Entry>, start: int) {
    exists i, j :: 0 <= i < j < |log| && log[i].time >= start > log[j].time
  }

  ghost predicate AllRecent(log: seq<Entry>, start: int) { forall i :: 0 <= i < |log| ==> log[i].time >= start }

  lemma OutOfOrderTail(log: seq<Entry>, start: int)
    requires log != [] && log[0].time < start
    ensures OutOfOrder(log, start) <==> OutOfOrder(log[1..], start)
  {
    var rest := log[1..];
    if OutOfOrder(rest, start) {
      var i, j :| 0 <= i < j < |rest| && rest[i].time >= start > rest[j].time;
      assert log[i + 1].time >= start > log[j + 1].time;
    }
    if OutOfOrder(log, start) {
      var i, j :| 0 <= i < j < |log| && log[i].time >= start > log[j].time;
      assert rest[i - 1].time >= start > rest[j - 1].time;
    }
  }

  /** Exactly when popping from the front leaves no entry older than the window. */
  lemma {:induction false} WindowExact(log: seq<Entry>, start: int)
    ensures AllRecent(DropOld(log, start), start) <==> !OutOfOrder(log, start)
  {
    if log != [] && log[0].time < start {
      WindowExact(log[1..], start);
      OutOfOrderTail(log, start);
    } else if log != [] {
      forall j | 0 <= j < |log| && log[j].time < start ensures OutOfOrder(log, start) {
        assert log[0].time >= start > log[j].time;
      }
    }
  }

  ghost predicate InOrder(log: seq<Entry>) { forall i, j :: 0 <= i < j < |log| ==> log[i].time <= log[j].time }

  /** With timestamps in order exactly the entries of the window stay. */
  lemma {:induction false} WindowFilter(log: seq<Entry>, start: int, e: Entry)
    requires InOrder(log)
    ensures InOrder(DropOld(log, start))
    ensures e in DropOld(log, start) <==> e in log && e.time >= start
  {
    if log != [] && log[0].time < start {
      WindowFilter(log[1..], start, e);
      assert log == [log[0]] + log[1..];
    } else if log != [] && e in log {
      var i :| 0 <= i < |log| && log[i] == e;
      assert log[0].time <= log[i].time;
    }
  }

  // ---------------------------------------------------------------- renaming after a split

  function Rename(log: seq<Entry>, a: nat, b: nat): (r: seq<Entry>)
    ensures |r| == |log| && forall i :: 0 <= i < |log| ==>
            r[i] == if log[i].node == a then log[i].(node := b) else log[i]
  {
    if log == [] then [] else [if log[0].node == a then log[0].(node := b) else log[0]] + Rename(log[1..], a, b)
  }

  /** m[b] = m.pop(a) */
  function Move<V>(m: map<nat, V>, a: nat, b: nat): map<nat, V>
    requires a in m
  {
    (m - {a})[b := m[a]]
  }

  lemma {:induction false} RenameSums(log: seq<Entry>, lens: seq<nat>, a: nat, b: nat, n: nat)
    requires a != b
    ensures Live(Rename(log, a, b), n) == if n == a then 0 else Live(log, n) + if n == b then Live(log, a) else 0
    ensures PromptTokens(Rename(log, a, b), lens, n) ==
              if n == a then 0 else PromptTokens(log, lens, n) + if n == b then PromptTokens(log, lens, a) else 0
  {
    if log != [] {
      RenameSums(log[1..], lens, a, b, n);
      assert Rename(log, a, b)[1..] == Rename(log[1..], a, b);
    }
  }

  /** `replace_old_node_with_new`: the moved map still equals the sums over the renamed log
      exactly when the new node had no live entries of its own. */
  lemma MoveExact(log: seq<Entry>, lens: seq<nat>, h: map<nat, int>, a: nat, b: nat)
    requires Logged(log, lens) && Sums(h, log, lens) && a in h && a != b
    ensures Sums(Move(h, a, b), Rename(log, a, b), lens) <==> b !in h
  {
    var r, m := Rename(log, a, b), Move(h, a, b);
    forall n
      ensures Live(r, n) == if n == a then 0 else Live(log, n) + if n == b then Live(log, a) else 0
      ensures PromptTokens(r, lens, n) ==
                if n == a then 0 else PromptTokens(log, lens, n) + if n == b then PromptTokens(log, lens, a) else 0
    {
      RenameSums(log, lens, a, b, n);
    }
    LiveTokens(log, lens, b);
    assert b in m && m[b] == PromptTokens(log, lens, a);
    if b !in h {
      assert PromptTokens(log, lens, b) == 0;
    }
  }

  lemma MoveCounts(log: seq<Entry>, c: map<nat, int>, a: nat, b: nat)
    requires Counts(c, log) && a in c && a != b
    ensures Counts(Move(c, a, b), Rename(log, a, b)) <==> b !in c
  {
    var r, m := Rename(log, a, b), Move(c, a, b);
    forall n ensures Live(r, n) == if n == a then 0 else Live(log, n) + if n == b then Live(log, a) else 0 {
      RenameSums(log, [], a, b, n);
    }
    assert b in m && m[b] == Live(log, a);
    if b !in c { assert Live(log, b) == 0; }
  }

  lemma MoveKeyed<V>(log: seq<Entry>, m: map<nat, V>, a: nat, b: nat)
    requires Keyed(m, log) && a in m && a != b
    ensures Keyed(Move(m, a, b), Rename(log, a, b))
  {
    forall n
      ensures Live(Rename(log, a, b), n) == if n == a then 0 else Live(log, n) + if n == b then Live(log, a) else 0
    {
      RenameSums(log, [], a, b, n);
    }
  }

  // ---------------------------------------------------------------- shared tokens drift

  /** Shared-prefix tokens of a node's live entries, as they were when logged: `added` are the
      own tokens each leaf had at that time. */
  function ShareTokens(log: seq<Entry>, added: seq<int>, lens: seq<nat>, node: nat): int
    requires |added| == |log|
  {
    if log == [] then 0
    else (if log[0].node == node then LenOf(lens, log[0].leaf) - added[0] else 0)
         + ShareTokens(log[1..], added[1..], lens, node)
  }

  /** Tokens the leaves of a node's live entries had of their own when they were logged. */
  function OwnSum(log: seq<Entry>, added: seq<int>, node: nat): int
    requires |added| == |log|
  {
    if log == [] then 0
    else (if log[0].node == node then added[0] else 0) + OwnSum(log[1..], added[1..], node)
  }

  lemma {:induction false} OwnOrShared(log: seq<Entry>, added: seq<int>, lens: seq<nat>, node: nat)
    requires |added| == |log|
    ensures OwnSum(log, added, node) + ShareTokens(log, added, lens, node) == PromptTokens(log, lens, node)
  {
    if log != [] { OwnOrShared(log[1..], added[1..], lens, node); }
  }

  /** One expiry takes off what the leaf shares now, own tokens being `own` by now. */
  lemma ShareExact(log: seq<Entry>, added: seq<int>, lens: seq<nat>, share: int, own: int)
    requires log != [] && |added| == |log| && share == ShareTokens(log, added, lens, log[0].node)
    ensures share - (LenOf(lens, log[0].leaf) - own) == ShareTokens(log[1..], added[1..], lens, log[0].node) <==>
            own == added[0]
  {
    assert ShareTokens(log, added, lens, log[0].node)
        == LenOf(lens, log[0].leaf) - added[0] + ShareTokens(log[1..], added[1..], lens, log[0].node);
  }

  /** The kept sums of shared tokens, with how far each has drifted from the fold. */
  ghost predicate Shares(m: map<nat, int>, drift: map<nat, int>, log: seq<Entry>, added: seq<int>, lens: seq<nat>) {
    && |added| == |log| && Keyed(m, log) && drift.Keys <= m.Keys
    && forall n :: n in m ==> m[n] + Get(drift, n) == ShareTokens(log, added, lens, n)
  }

  lemma {:induction false} ShareAppend(log: seq<Entry>, added: seq<int>, e: Entry, own: int, lens: seq<nat>, n: nat)
    requires |added| == |log|
    ensures ShareTokens(log + [e], added + [own], lens, n) ==
              ShareTokens(log, added, lens, n) + if e.node == n then LenOf(lens, e.leaf) - own else 0
  {
    if log != [] {
      ShareAppend(log[1..], added[1..], e, own, lens, n);
      assert (log + [e])[1..] == log[1..] + [e] && (added + [own])[1..] == added[1..] + [own];
    }
  }

  lemma {:induction false} ShareNone(log: seq<Entry>, added: seq<int>, lens: seq<nat>, n: nat)
    requires |added| == |log| && Live(log, n) == 0
    ensures ShareTokens(log, added, lens, n) == 0
  {
    if log != [] { ShareNone(log[1..], added[1..], lens, n); }
  }

  lemma SharesAdd(log: seq<Entry>, added: seq<int>, e: Entry, own: int, lens: seq<nat>, m: map<nat, int>,
      drift: map<nat, int>)
    requires Shares(m, drift, log, added, lens)
    ensures Shares(m[e.node := Get(m, e.node) + (LenOf(lens, e.leaf) - own)], drift, log + [e], added + [own], lens)
  {
    hide ShareTokens, Keyed;
    AddKeyed(log, e, m, Get(m, e.node) + (LenOf(lens, e.leaf) - own));
    if e.node !in m {
      NotKeyed(log, m, e.node);
      ShareNone(log, added, lens, e.node);
    }
    forall n | n == e.node || n in m
      ensures ShareTokens(log + [e], added + [own], lens, n) ==
                ShareTokens(log, added, lens, n) + if e.node == n then LenOf(lens, e.leaf) - own else 0
    {
      ShareAppend(log, added, e, own, lens, n);
    }
  }

  lemma NotKeyed<V>(log: seq<Entry>, m: map<nat, V>, n: nat)
    requires Keyed(m, log) && n !in m
    ensures Live(log, n) == 0
  {
  }

  /** An expiry makes the sum of the entry's node drift by the tokens its leaf has lost. */
  lemma SharesExpire(log: seq<Entry>, added: seq<int>, own: int, lens: seq<nat>, m: map<nat, int>, drift: map<nat, int>)
    requires log != [] && Shares(m, drift, log, added, lens)
    ensures log[0].node in m
    ensures var n := log[0].node;
            var m', d' := m[n := m[n] - (LenOf(lens, log[0].leaf) - own)], drift[n := Get(drift, n) + (added[0] - own)];
            if Live(log[1..], n) > 0 then Shares(m', d', log[1..], added[1..], lens)
            else Shares(m' - {n}, d' - {n}, log[1..], added[1..], lens)
  {
    hide Keyed;
    ExpireKeyed(log, m, Get(m, log[0].node) - (LenOf(lens, log[0].leaf) - own));
    forall n ensures ShareTokens(log, added, lens, n) ==
      ShareTokens(log[1..], added[1..], lens, n) +
        if log[0].node == n then LenOf(lens, log[0].leaf) - added[0] else 0 {}
  }

  function MoveDrift(drift: map<nat, int>, a: nat, b: nat): map<nat, int> {
    if a in drift then Move(drift, a, b) else drift
  }

  lemma {:induction false} RenameShare(log: seq<Entry>, added: seq<int>, lens: seq<nat>, a: nat, b: nat, n: nat)
    requires a != b && |added| == |log|
    ensures ShareTokens(Rename(log, a, b), added, lens, n) ==
              if n == a then 0
              else ShareTokens(log, added, lens, n) + if n == b then ShareTokens(log, added, lens, a) else 0
  {
    if log != [] {
      RenameShare(log[1..], added[1..], lens, a, b, n);
      assert Rename(log, a, b)[1..] == Rename(log[1..], a, b);
    }
  }

  lemma SharesMove(log: seq<Entry>, added: seq<int>, lens: seq<nat>, m: map<nat, int>, drift: map<nat, int>, a: nat,
      b: nat)
    requires Shares(m, drift, log, added, lens) && a in m && b !in m && a != b
    ensures Shares(Move(m, a, b), MoveDrift(drift, a, b), Rename(log, a, b), added, lens)
  {
    hide Keyed, ShareTokens, Rename;
    MoveKeyed(log, m, a, b);
    NotKeyed(log, m, b);
    ShareNone(log, added, lens, b);
    forall n ensures ShareTokens(Rename(log, a, b), added, lens, n) ==
      if n == a then 0 else ShareTokens(log, added, lens, n) + if n == b then ShareTokens(log, added, lens, a) else 0
    {
      RenameShare(log, added, lens, a, b, n);
    }
  }

  lemma {:induction false} ShareFrame(log: seq<Entry>, added: seq<int>, a: seq<nat>, b: seq<nat>, n: nat)
    requires |added| == |log| && Logged(log, a) && |a| <= |b| && b[..|a|] == a
    ensures ShareTokens(log, added, b, n) == ShareTokens(log, added, a, n)
  {
    if log != [] {
      assert Logged(log[1..], a) by { assert forall i :: 0 <= i < |log[1..]| ==> log[1..][i] == log[i + 1]; }
      assert log[0].leaf < |a|;
      assert b[log[0].leaf] == b[..|a|][log[0].leaf];
      ShareFrame(log[1..], added[1..], a, b, n);
    }
  }

  lemma {:induction false} SumsFrame(log: seq<Entry>, a: seq<nat>, b: seq<nat>, n: nat)
    requires Logged(log, a) && |a| <= |b| && b[..|a|] == a
    ensures Logged(log, b) && PromptTokens(log, b, n) == PromptTokens(log, a, n)
  {
    if log != [] {
      assert Logged(log[1..], a) by { assert forall i :: 0 <= i < |log[1..]| ==> log[1..][i] == log[i + 1]; }
      SumsFrame(log[1..], a, b, n);
      forall i | 0 <= i < |log| ensures log[i].leaf < |b| && b[log[i].leaf] > 0 {
        assert b[log[i].leaf] == b[..|a|][log[i].leaf];
      }
    }
  }
}
