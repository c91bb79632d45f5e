/**
 * Runs of the view manager: a sequence of host calls (load_module, switch
 * and the dispatchers) applied one after another from some manager state.
 * The lemmas state what holds across a whole run: the table never exceeds
 * its capacity, a filled slot is never refilled or emptied, every successful
 * load hands out a fresh slot that keeps its module, and every callback the
 * manager invokes belongs to a loaded view that exports it.
 */
module ViewRuns {
  import S = ViewSymbols
  import opened ViewProtocol

  /** One host call on the manager; `verdict` and `reply` are what the view's callback returns. */
  datatype Op =
    | Load(name: string, unit: Option<set<S.Symbol>>)
    | SwitchTo(slot: int, verdict: int)
    | Send(call: HostCall, reply: int)

  /** The final state of a run, the value each call returned, and the callbacks invoked, in order. */
  datatype Run = Run(final: ManagerState, results: seq<int>, calls: seq<Event>)

  /** One host call. */
  function Apply(s: ManagerState, op: Op): (r: Step)
    ensures WellFormed(s) ==> WellFormed(r.next)
    ensures |s.views| <= |r.next.views| && r.next.views[..|s.views|] == s.views
    ensures !op.Load? ==> r.next.views == s.views
  {
    match op
    case Load(name, unit) => LoadStep(s, name, unit)
    case SwitchTo(k, verdict) => SwitchStep(s, k, verdict)
    case Send(c, reply) => Step(s, Reply(s, c, reply), Forward(s, c))
  }

  /** The host calls applied in order, starting from s. */
  function Execute(s: ManagerState, ops: seq<Op>): (r: Run)
    ensures |r.results| == |ops|
    decreases |ops|
  {
    if ops == [] then Run(s, [], [])
    else
      var first := Apply(s, ops[0]);
      var rest := Execute(first.next, ops[1..]);
      Run(rest.final, [first.result] + rest.results, first.calls + rest.calls)
  }

  /** The call op returned `result` as a load_module that filled a slot. */
  predicate Filled(op: Op, result: int)
  {
    op.Load? && result != LoadFailed
  }

  /** How many of the calls were loads that filled a slot. */
  function FilledCount(ops: seq<Op>, results: seq<int>): (n: nat)
    requires |ops| == |results|
    ensures n <= |ops|
  {
    if ops == [] then 0
    else (if Filled(ops[0], results[0]) then 1 else 0) + FilledCount(ops[1..], results[1..])
  }

  /** num_views stays within 0..DT_VIEW_MAX_MODULES and current_view names a loaded slot or none, whatever the host does. */
  lemma {:induction false} RunWellFormed(s: ManagerState, ops: seq<Op>)
    requires WellFormed(s)
    ensures WellFormed(Execute(s, ops).final)
    decreases |ops|
  {
    if ops != [] {
      RunWellFormed(Apply(s, ops[0]).next, ops[1..]);
    }
  }

  /** Slots once filled keep their view for the rest of the run: num_views never decreases. */
  lemma {:induction false} RunKeepsSlots(s: ManagerState, ops: seq<Op>)
    ensures |s.views| <= |Execute(s, ops).final.views|
    ensures Execute(s, ops).final.views[..|s.views|] == s.views
    decreases |ops|
  {
    if ops != [] {
      var first := Apply(s, ops[0]);
      RunKeepsSlots(first.next, ops[1..]);
      var f := Execute(s, ops).final.views;
      assert f[..|first.next.views|] == first.next.views;
      assert f[..|s.views|] == f[..|first.next.views|][..|s.views|];
    }
  }

  /** Every load that filled a slot added exactly one view, and nothing else added any. */
  lemma {:induction false} RunCountsViews(s: ManagerState, ops: seq<Op>)
    ensures |Execute(s, ops).final.views| == |s.views| + FilledCount(ops, Execute(s, ops).results)
    decreases |ops|
  {
    if ops != [] {
      RunCountsViews(Apply(s, ops[0]).next, ops[1..]);
      assert Execute(s, ops).results[1..] == Execute(Apply(s, ops[0]).next, ops[1..]).results;
    }
  }

  /**
   * The slot a successful load_module returns is a new slot, below
   * DT_VIEW_MAX_MODULES, and at the end of the run it still holds the module
   * that call loaded.
   */
  lemma {:induction false} RunLoadSlots(s: ManagerState, ops: seq<Op>)
    requires WellFormed(s)
    ensures var r := Execute(s, ops);
      forall i :: 0 <= i < |ops| && Filled(ops[i], r.results[i]) ==>
        |s.views| <= r.results[i] < |r.final.views| <= MaxModules &&
        r.final.views[r.results[i]].name == ops[i].name &&
        ops[i].unit == Some(r.final.views[r.results[i]].symbols)
    decreases |ops|
  {
    if ops != [] {
      var first := Apply(s, ops[0]);
      var r := Execute(s, ops);
      var rest := Execute(first.next, ops[1..]);
      RunLoadSlots(first.next, ops[1..]);
      RunKeepsSlots(first.next, ops[1..]);
      RunWellFormed(first.next, ops[1..]);
      forall i | 0 <= i < |ops| && Filled(ops[i], r.results[i])
        ensures |s.views| <= r.results[i] < |r.final.views| <= MaxModules
        ensures r.final.views[r.results[i]].name == ops[i].name
        ensures ops[i].unit == Some(r.final.views[r.results[i]].symbols)
      {
        if i == 0 {
          assert r.final.views[..|first.next.views|][first.result] == first.next.views[first.result];
        } else {
          assert r.results[i] == rest.results[i - 1] && ops[i] == ops[1..][i - 1];
        }
      }
    }
  }

  /** Successful loads hand out slots in increasing order, so no two of them share a slot. */
  lemma {:induction false} RunLoadSlotsIncrease(s: ManagerState, ops: seq<Op>)
    requires WellFormed(s)
    ensures var r := Execute(s, ops);
      forall i, j :: 0 <= i < j < |ops| && Filled(ops[i], r.results[i]) && Filled(ops[j], r.results[j]) ==>
        r.results[i] < r.results[j]
    decreases |ops|
  {
    if ops != [] {
      var first := Apply(s, ops[0]);
      var r := Execute(s, ops);
      var rest := Execute(first.next, ops[1..]);
      RunLoadSlotsIncrease(first.next, ops[1..]);
      RunLoadSlots(first.next, ops[1..]);
      forall i, j | 0 <= i < j < |ops| && Filled(ops[i], r.results[i]) && Filled(ops[j], r.results[j])
        ensures r.results[i] < r.results[j]
      {
        assert r.results[j] == rest.results[j - 1] && ops[j] == ops[1..][j - 1];
        if i > 0 {
          assert r.results[i] == rest.results[i - 1] && ops[i] == ops[1..][i - 1];
        }
      }
    }
  }

  /** Once the table is full, every further load_module fails. */
  lemma {:induction false} RunFullRefusesLoads(s: ManagerState, ops: seq<Op>)
    requires WellFormed(s) && |s.views| == MaxModules
    ensures var r := Execute(s, ops);
      forall i :: 0 <= i < |ops| && ops[i].Load? ==> r.results[i] == LoadFailed
  {
    RunCountsViews(s, ops);
    RunWellFormed(s, ops);
    NoFillCountsZero(ops, Execute(s, ops).results);
  }

  /** A count of zero fills means no call filled a slot. */
  lemma {:induction false} NoFillCountsZero(ops: seq<Op>, results: seq<int>)
    requires |ops| == |results| && FilledCount(ops, results) == 0
    ensures forall i :: 0 <= i < |ops| ==> !Filled(ops[i], results[i])
  {
    if ops != [] {
      NoFillCountsZero(ops[1..], results[1..]);
      forall i | 0 < i < |ops|
        ensures !Filled(ops[i], results[i])
      {
        assert ops[i] == ops[1..][i - 1] && results[i] == results[1..][i - 1];
      }
    }
  }

  /** Every call goes to a slot of `views` whose view exports the callback. */
  predicate CallsExported(calls: seq<Event>, views: seq<LoadedView>)
  {
    forall i :: 0 <= i < |calls| ==>
      0 <= calls[i].slot < |views| && SymbolOf(calls[i].call) in views[calls[i].slot].symbols
  }

  /** Each step's callbacks go to loaded slots whose views export them. */
  lemma ApplyCallsExported(s: ManagerState, op: Op)
    ensures CallsExported(Apply(s, op).calls, Apply(s, op).next.views)
  {
    if op.SwitchTo? {
      SwitchCalls(s, op.slot, op.verdict);
    }
  }

  /** Calls made while the table was `before` stay valid once it has grown to `after`. */
  lemma CallsExportedAppend(a: seq<Event>, b: seq<Event>, before: seq<LoadedView>, after: seq<LoadedView>)
    requires |before| <= |after| && after[..|before|] == before
    requires CallsExported(a, before) && CallsExported(b, after)
    ensures CallsExported(a + b, after)
  {
    forall i | 0 <= i < |a + b|
      ensures 0 <= (a + b)[i].slot < |after| && SymbolOf((a + b)[i].call) in after[(a + b)[i].slot].symbols
    {
      if i < |a| {
        assert (a + b)[i] == a[i] && after[..|before|][a[i].slot] == before[a[i].slot];
      } else {
        assert (a + b)[i] == b[i - |a|];
      }
    }
  }

  /** The manager only ever calls a callback that a loaded view exports; an absent callback is never called. */
  lemma {:induction false} RunCallsExported(s: ManagerState, ops: seq<Op>)
    ensures CallsExported(Execute(s, ops).calls, Execute(s, ops).final.views)
    decreases |ops|
  {
    if ops != [] {
      var first := Apply(s, ops[0]);
      var rest := Execute(first.next, ops[1..]);
      RunCallsExported(first.next, ops[1..]);
      RunKeepsSlots(first.next, ops[1..]);
      ApplyCallsExported(s, ops[0]);
      CallsExportedAppend(first.calls, rest.calls, first.next.views, rest.final.views);
    }
  }
}
