/**
 The reader's aggregates over the five tables: what each number adds up, and that a summary of one
 run kind sees nothing of the other.
 */
module TelemetrySummary {
  import opened Results
  import opened Timestamps
  import opened TelemetryStore
  import opened TelemetryInvariant
  import opened TelemetryHistory

  // ---- sums as SQL takes them: NULL when no row contributes ----

  function OptAdd(a: Option<int>, b: Option<int>): Option<int> {
    if a.None? then b else if b.None? then a else Some(a.value + b.value)
  }

  function SumWhere(us: seq<UsageRow>, keep: UsageRow -> bool): Option<int> {
    if us == [] then None
    else
      var last := us[|us| - 1];
      OptAdd(SumWhere(us[..|us| - 1], keep), if keep(last) then Some(last.total) else None)
  }

  lemma {:induction false} SumNullIffNoRow(us: seq<UsageRow>, keep: UsageRow -> bool)
    ensures SumWhere(us, keep).None? <==> forall k :: 0 <= k < |us| ==> !keep(us[k])
  {
    if us != [] {
      SumNullIffNoRow(us[..|us| - 1], keep);
    }
  }

  lemma {:induction false} SumAgrees(us: seq<UsageRow>, p: UsageRow -> bool, q: UsageRow -> bool)
    requires forall k :: 0 <= k < |us| ==> p(us[k]) == q(us[k])
    ensures SumWhere(us, p) == SumWhere(us, q)
  {
    if us != [] {
      SumAgrees(us[..|us| - 1], p, q);
    }
  }

  /** Rows in two disjoint parts add up. */
  lemma {:induction false} SumSplits(us: seq<UsageRow>, p: UsageRow -> bool,
                                     q: UsageRow -> bool, both: UsageRow -> bool)
    requires forall u :: both(u) == (p(u) || q(u)) && !(p(u) && q(u))
    ensures SumWhere(us, both) == OptAdd(SumWhere(us, p), SumWhere(us, q))
  {
    if us != [] {
      SumSplits(us[..|us| - 1], p, q, both);
    }
  }

  function Group<K(==)>(keep: UsageRow -> bool, key: UsageRow -> K, k: K): UsageRow -> bool {
    (u: UsageRow) => keep(u) && key(u) == k
  }

  /** The sum of one group at a time. */
  function SumOfGroups<K(==)>(us: seq<UsageRow>, keep: UsageRow -> bool, key: UsageRow -> K,
                              keys: seq<K>): Option<int> {
    if keys == [] then None
    else OptAdd(SumOfGroups(us, keep, key, keys[..|keys| - 1]), SumWhere(us, Group(keep, key, keys[|keys| - 1])))
  }

  predicate Distinct<K(==)>(keys: seq<K>) {
    forall i, j :: 0 <= i < j < |keys| ==> keys[i] != keys[j]
  }

  lemma {:induction false} GroupsAddUpTo<K>(us: seq<UsageRow>, keep: UsageRow -> bool, key: UsageRow -> K, keys: seq<K>)
    requires Distinct(keys)
    ensures SumOfGroups(us, keep, key, keys) == SumWhere(us, u => keep(u) && key(u) in keys)
  {
    if keys == [] {
      SumNullIffNoRow(us, u => keep(u) && key(u) in keys);
    } else {
      var (front, last) := (keys[..|keys| - 1], keys[|keys| - 1]);
      GroupsAddUpTo(us, keep, key, front);
      assert keys == front + [last];
      SumSplits(us, u => keep(u) && key(u) in front, Group(keep, key, last), u => keep(u) && key(u) in keys);
    }
  }

  /** Grouping by any key loses and repeats nothing, once the groups cover the rows. */
  lemma GroupsAddUp<K>(us: seq<UsageRow>, keep: UsageRow -> bool, key: UsageRow -> K, keys: seq<K>)
    requires Distinct(keys) && forall k :: 0 <= k < |us| && keep(us[k]) ==> key(us[k]) in keys
    ensures SumWhere(us, keep) == SumOfGroups(us, keep, key, keys)
  {
    GroupsAddUpTo(us, keep, key, keys);
    SumAgrees(us, keep, u => keep(u) && key(u) in keys);
  }

  // ---- the reader's queries ----

  /** The `usage_scope` of a summary: a run kind, and the projection's window when there is one. */
  predicate InScope(db: Db, kind: RunKind, window: Option<string>, runId: string) {
    runId in db.runs && db.runs[runId].kind == kind && (window.Some? ==> db.runs[runId].window == window)
  }

  /** The join of a receipt with its invocation and run. */
  predicate ReceiptInScope(db: Db, kind: RunKind, window: Option<string>, u: UsageRow) {
    u.invocationId in db.invocations && InScope(db, kind, window, db.invocations[u.invocationId].runId)
  }

  function Counted(db: Db, kind: RunKind, window: Option<string>, exact: bool): UsageRow -> bool {
    (u: UsageRow) => u.exact == exact && u.final && ReceiptInScope(db, kind, window, u)
  }

  /** `known` with `exact`, `estimated` without. */
  function Tokens(db: Db, kind: RunKind, window: Option<string>, exact: bool): Option<int> {
    SumWhere(db.usage, Counted(db, kind, window, exact))
  }

  /** The same two columns for one invocation, as the model query computes them. */
  function ModelTokens(db: Db, id: string, exact: bool): Option<int> {
    var count := CountRows(db.usage, id, exact);
    if count > 0 then Some(TotalRows(db.usage, id, exact)) else None
  }

  function CountRows(us: seq<UsageRow>, id: string, exact: bool): nat {
    if us == [] then 0
    else
      var last := us[|us| - 1];
      CountRows(us[..|us| - 1], id, exact) + if FinalOf(last, id, exact) then 1 else 0
  }

  function TotalRows(us: seq<UsageRow>, id: string, exact: bool): int {
    if us == [] then 0
    else
      var last := us[|us| - 1];
      TotalRows(us[..|us| - 1], id, exact) + if FinalOf(last, id, exact) then last.total else 0
  }

  predicate FinalOf(u: UsageRow, id: string, exact: bool) {
    (u.invocationId, u.exact, u.final) == (id, exact, true)
  }

  lemma {:induction false} ModelTokensIsSum(us: seq<UsageRow>, id: string, exact: bool)
    ensures SumWhere(us, u => FinalOf(u, id, exact))
         == if CountRows(us, id, exact) > 0 then Some(TotalRows(us, id, exact)) else None
    ensures CountRows(us, id, exact) == 0 ==> TotalRows(us, id, exact) == 0
  {
    if us != [] {
      ModelTokensIsSum(us[..|us| - 1], id, exact);
    }
  }

  /** Known usage is null iff there is no exact final receipt in scope; likewise estimated usage. */
  lemma TokensNullIffNoReceipt(db: Db, kind: RunKind, window: Option<string>, exact: bool)
    ensures Tokens(db, kind, window, exact).None?
       <==> forall k :: 0 <= k < |db.usage| && ReceiptInScope(db, kind, window, db.usage[k]) ==>
              !(db.usage[k].final && db.usage[k].exact == exact)
  {
    SumNullIffNoRow(db.usage, Counted(db, kind, window, exact));
  }

  function InvocationOf(u: UsageRow): string {
    u.invocationId
  }

  function SumOfModels(db: Db, ids: seq<string>, exact: bool): Option<int> {
    if ids == [] then None else OptAdd(SumOfModels(db, ids[..|ids| - 1], exact), ModelTokens(db, ids[|ids| - 1], exact))
  }

  lemma {:induction false} ModelsAreGroups(db: Db, ids: seq<string>, kind: RunKind, window: Option<string>, exact: bool)
    requires forall k :: 0 <= k < |ids| ==>
        ids[k] in db.invocations && InScope(db, kind, window, db.invocations[ids[k]].runId)
    ensures SumOfModels(db, ids, exact) == SumOfGroups(db.usage, Counted(db, kind, window, exact), InvocationOf, ids)
  {
    if ids != [] {
      var id := ids[|ids| - 1];
      var keep := Counted(db, kind, window, exact);
      ModelsAreGroups(db, ids[..|ids| - 1], kind, window, exact);
      ModelTokensIsSum(db.usage, id, exact);
      SumAgrees(db.usage, u => FinalOf(u, id, exact), Group(keep, InvocationOf, id));
    }
  }

  /** The aggregate equals the sum of the per-invocation values that the model list shows. */
  lemma TokensAreTheModelsTokens(db: Db, kind: RunKind, window: Option<string>, exact: bool, ids: seq<string>)
    requires Distinct(ids)
    requires forall i :: i in ids <==> i in db.invocations && InScope(db, kind, window, db.invocations[i].runId)
    ensures Tokens(db, kind, window, exact) == SumOfModels(db, ids, exact)
  {
    ModelsAreGroups(db, ids, kind, window, exact);
    GroupsAddUp(db.usage, Counted(db, kind, window, exact), InvocationOf, ids);
  }

  function WindowOf(db: Db, u: UsageRow): Option<string> {
    if u.invocationId in db.invocations && db.invocations[u.invocationId].runId in db.runs
    then db.runs[db.invocations[u.invocationId].runId].window
    else None
  }

  function ByWindow(db: Db): UsageRow -> Option<string> {
    (u: UsageRow) => WindowOf(db, u)
  }

  function SumOfWindows(db: Db, kind: RunKind, windows: seq<string>, exact: bool): Option<int> {
    if windows == [] then None
    else OptAdd(SumOfWindows(db, kind, windows[..|windows| - 1], exact),
                Tokens(db, kind, Some(windows[|windows| - 1]), exact))
  }

  /** The receipts of runs that no window was bound to. */
  function UnboundTokens(db: Db, kind: RunKind, exact: bool): Option<int> {
    SumWhere(db.usage, Group(Counted(db, kind, None, exact), ByWindow(db), None))
  }

  lemma {:induction false} WindowsAreGroups(db: Db, kind: RunKind, windows: seq<string>,
                                            keys: seq<Option<string>>, exact: bool)
    requires |keys| == |windows| && forall k :: 0 <= k < |keys| ==> keys[k] == Some(windows[k])
    ensures SumOfWindows(db, kind, windows, exact)
         == SumOfGroups(db.usage, Counted(db, kind, None, exact), ByWindow(db), keys)
  {
    if windows != [] {
      var n := |windows| - 1;
      WindowsAreGroups(db, kind, windows[..n], keys[..n], exact);
      var keep, key := Counted(db, kind, None, exact), ByWindow(db);
      SumAgrees(db.usage, Counted(db, kind, Some(windows[n]), exact), Group(keep, key, keys[|keys| - 1]));
    }
  }

  lemma WindowListed(db: Db, kind: RunKind, windows: seq<string>, exact: bool, u: UsageRow)
    requires forall r :: r in db.runs && db.runs[r].kind == kind && db.runs[r].window.Some? ==>
        db.runs[r].window.value in windows
    requires Counted(db, kind, None, exact)(u)
    ensures WindowOf(db, u).Some? ==> WindowOf(db, u).value in windows
  {
  }

  /** The per-window sums and the runs without a window add up to the total of the kind. */
  lemma WindowsAddUp(db: Db, kind: RunKind, windows: seq<string>, exact: bool)
    requires Distinct(windows)
    requires forall r :: r in db.runs && db.runs[r].kind == kind && db.runs[r].window.Some? ==>
        db.runs[r].window.value in windows
    ensures Tokens(db, kind, None, exact)
        == OptAdd(SumOfWindows(db, kind, windows, exact), UnboundTokens(db, kind, exact))
  {
    hide InScope;
    var keep, key := Counted(db, kind, None, exact), ByWindow(db);
    var bound := seq(|windows|, k requires 0 <= k < |windows| => Some(windows[k]));
    var keys := bound + [None];
    forall k | 0 <= k < |db.usage| && keep(db.usage[k])
      ensures key(db.usage[k]) in keys
    {
      WindowListed(db, kind, windows, exact, db.usage[k]);
      var w := key(db.usage[k]);
      if w.Some? {
        var j :| 0 <= j < |windows| && windows[j] == w.value;
        assert keys[j] == w;
      } else {
        assert keys[|windows|] == w;
      }
    }
    GroupsAddUp(db.usage, keep, key, keys);
    assert keys[..|keys| - 1] == bound;
    WindowsAreGroups(db, kind, windows, bound, exact);
  }

  // ---- usage never falls ----

  lemma {:induction false} SumGrows(us: seq<UsageRow>, more: seq<UsageRow>, p: UsageRow -> bool, q: UsageRow -> bool)
    requires us <= more && forall k :: 0 <= k < |more| ==> more[k].total >= 0
    requires forall k :: 0 <= k < |us| && p(us[k]) ==> q(us[k])
    ensures SumWhere(us, p).Some? ==> SumWhere(more, q).Some? && SumWhere(us, p).value <= SumWhere(more, q).value
    ensures SumWhere(more, q).Some? ==> SumWhere(more, q).value >= 0
    decreases |more|
  {
    if more != [] {
      var shorter := more[..|more| - 1];
      if |us| < |more| {
        SumGrows(us, shorter, p, q);
      } else {
        assert us == more;
        SumGrows(shorter, shorter, p, q);
      }
    }
  }

  lemma ReceiptStaysInScope(a: Db, b: Db, kind: RunKind, window: Option<string>, u: UsageRow)
    requires Evolves(a, b) && ReceiptInScope(a, kind, window, u)
    ensures ReceiptInScope(b, kind, window, u)
  {
    var i := a.invocations[u.invocationId];
    assert InvocationEvolves(i, b.invocations[u.invocationId]) && RunEvolves(a.runs[i.runId], b.runs[i.runId]);
  }

  lemma TotalsNotNegative(db: Db)
    requires Inv(db)
    ensures forall k :: 0 <= k < |db.usage| ==> db.usage[k].total >= 0
  {
    assert forall k :: 0 <= k < |db.usage| ==> ValidUsage(db.usage[k]);
  }

  /** In any scope, the tokens of a later state of the store are at least those of an earlier one. */
  lemma TokensNeverFall(requests: seq<Request>, n: nat, m: nat, kind: RunKind, window: Option<string>, exact: bool)
    requires n <= m <= |requests| && Tokens(Run(requests[..n]), kind, window, exact).Some?
    ensures Tokens(Run(requests[..m]), kind, window, exact).Some?
    ensures Tokens(Run(requests[..n]), kind, window, exact).value
         <= Tokens(Run(requests[..m]), kind, window, exact).value
  {
    var (a, b) := (Run(requests[..n]), Run(requests[..m]));
    HistoryOnlyGrows(requests, n, m);
    EveryRunKeepsInv(requests[..m]);
    TotalsNotNegative(b);
    assert a.usage <= b.usage;
    hide Inv, Evolves, ReceiptInScope;
    forall u | ReceiptInScope(a, kind, window, u)
      ensures ReceiptInScope(b, kind, window, u)
    {
      ReceiptStaysInScope(a, b, kind, window, u);
    }
    SumGrows(a.usage, b.usage, Counted(a, kind, window, exact), Counted(b, kind, window, exact));
  }
}
