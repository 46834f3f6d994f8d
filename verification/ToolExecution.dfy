/** The generator as its loop is written, with a scheduler inside a group that picks any call it likes. */
module ToolExecution {
  import opened Json
  import opened ToolScheduler

  /** One call settles to its lone result at a fixed world. */
  ghost predicate OnItsWay(x: Executor, c: PreparedCall, w: World, status: Status)
    requires Settles(x)
  {
    match status
    case Waiting => true
    case Running(l) => Report(x, c, Finish(x, c, l, w).0) == Report(x, c, Alone(x, c, w).0)
    case Settled(e) => e == Report(x, c, Alone(x, c, w).0)
  }

  /** Awaits a group: its calls start and step in an arbitrary order until all have settled. */
  method RunGroup(x: Executor, group: seq<PreparedCall>, before: World)
    returns (results: seq<ExecutedCall>, w: World)
    requires Settles(x) && Numbered(group)
    requires forall k :: 0 <= k < |group| ==> ReadOnly(x, group[k])
    ensures w == before
    ensures |results| == |group|
    ensures forall k :: 0 <= k < |group| ==> results[k] == Report(x, group[k], Alone(x, group[k], before).0)
  {
    var status := seq(|group|, _ => Waiting);
    w := before;
    while exists k :: 0 <= k < |status| && !status[k].Settled?
      invariant |status| == |group| && w == before
      invariant forall k :: 0 <= k < |group| ==> OnItsWay(x, group[k], before, status[k])
      decreases TotalWork(x, group, status, |group|)
    {
      var k :| 0 <= k < |status| && !status[k].Settled?;
      ghost var was := status;
      w, status := Step(x, group[k], k, w, status);
      UpdateWork(x, group, was, k, status[k], |group|);
    }
    results := SortByIndex(Collected(seq(|group|, k => k), status));
    ghost var collected := Collected(seq(|group|, k => k), status);
    forall k | 0 <= k < |collected|
      ensures collected[k] == Report(x, group[k], Alone(x, group[k], before).0)
    {
      assert OnItsWay(x, group[k], before, status[k]);
    }
    SortIsIdentity(collected);
  }

  /** Starts call `k`, or takes its next step. */
  method Step(x: Executor, c: PreparedCall, k: nat, before: World, status: seq<Status>)
    returns (w: World, status': seq<Status>)
    requires Settles(x) && k < |status| && !status[k].Settled?
    requires OnItsWay(x, c, before, status[k])
    ensures |status'| == |status| && status' == status[k := status'[k]]
    ensures Work(x, c, status'[k]) < Work(x, c, status[k])
    ensures ReadOnly(x, c) ==> w == before && OnItsWay(x, c, before, status'[k])
  {
    w := before;
    match status[k]
    case Waiting =>
      match Gate(x, c) {
        case Some(outcome) => status' := status[k := Settled(Report(x, c, outcome))];
        case None => status' := status[k := Running(x.begin(c))];
      }
    case Running(l) =>
      assert ReadOnly(x, c) ==> x.step(c, l, before).world == before;
      match x.step(c, l, before) {
        case Continue(l', v) => w, status' := v, status[k := Running(l')];
        case Settle(outcome, v) => w, status' := v, status[k := Settled(Report(x, c, outcome))];
      }
  }

  /** Awaits one call by itself. */
  method RunOne(x: Executor, c: PreparedCall, before: World) returns (e: ExecutedCall, w: World)
    requires Settles(x)
    ensures (e, w) == (Report(x, c, Alone(x, c, before).0), Alone(x, c, before).1)
  {
    w := before;
    match Gate(x, c) {
      case Some(outcome) => return Report(x, c, outcome), w;
      case None =>
    }
    var l := x.begin(c);
    while true
      invariant Finish(x, c, l, w) == Alone(x, c, before)
      decreases x.rank(c, l)
    {
      match x.step(c, l, w) {
        case Continue(l', v) => l, w := l', v;
        case Settle(outcome, v) => return Report(x, c, outcome), v;
      }
    }
  }

  /**
   The loop's state before call `i`: the calls from `lo` on are collected, those before it have been
   yielded, and the world is that of running one call after another.
   */
  ghost predicate Collecting(x: Executor, calls: seq<PreparedCall>, before: World, lo: nat, i: nat,
                             group: seq<PreparedCall>, yielded: seq<ExecutedCall>, w: World)
    requires Settles(x)
  {
    && lo <= i <= |calls| && group == calls[lo..i]
    && (forall k :: lo <= k < i ==> calls[k].canRunConcurrently)
    && (forall k :: lo <= k <= i ==> w == WorldAfter(x, calls, before, k))
    && yielded == Sequential(x, calls, before, lo)
  }

  lemma CollectOne(x: Executor, calls: seq<PreparedCall>, before: World, lo: nat, i: nat,
                   group: seq<PreparedCall>, yielded: seq<ExecutedCall>, w: World)
    requires Assumed(x, calls) && Collecting(x, calls, before, lo, i, group, yielded, w)
    requires i < |calls| && calls[i].canRunConcurrently
    ensures Collecting(x, calls, before, lo, i + 1, group + [calls[i]], yielded, w)
  {
    SafeCallKeepsWorld(x, calls, before, i);
  }

  lemma YieldOne(x: Executor, calls: seq<PreparedCall>, before: World, i: nat, yielded: seq<ExecutedCall>, w: World)
    requires Settles(x) && Collecting(x, calls, before, i, i, [], yielded, w) && i < |calls|
    ensures var (outcome, w') := Alone(x, calls[i], w);
            Collecting(x, calls, before, i + 1, i + 1, [], yielded + [Report(x, calls[i], outcome)], w')
  {
    assert w == WorldAfter(x, calls, before, i);
    assert ResultOf(x, calls, before, i) == Report(x, calls[i], Alone(x, calls[i], w).0);
    assert yielded + [ResultOf(x, calls, before, i)] == Sequential(x, calls, before, i + 1);
  }

  /** Drains the generator: results and final world are those of running one call after another. */
  method ExecuteToolCalls(x: Executor, calls: seq<PreparedCall>, maxParallel: Option<int>, before: World)
    returns (yielded: seq<ExecutedCall>, w: World)
    requires Assumed(x, calls)
    ensures yielded == Sequential(x, calls, before, |calls|)
    ensures w == WorldAfter(x, calls, before, |calls|)
  {
    var limit := Limit(maxParallel);
    var group: seq<PreparedCall> := [];
    yielded, w := [], before;
    for i := 0 to |calls|
      invariant |group| <= i && |group| < limit
      invariant Collecting(x, calls, before, i - |group|, i, group, yielded, w)
    {
      var prepared := calls[i];
      if prepared.canRunConcurrently {
        CollectOne(x, calls, before, i - |group|, i, group, yielded, w);
        group := group + [prepared];
        if |group| < limit {
          continue;
        }
        yielded, w := Flush(x, calls, i + 1 - |group|, i + 1, before, group, yielded, w);
        group := [];
        continue;
      }
      if group != [] {
        yielded, w := Flush(x, calls, i - |group|, i, before, group, yielded, w);
        group := [];
      }
      YieldOne(x, calls, before, i, yielded, w);
      var executed;
      executed, w := RunOne(x, prepared, w);
      yielded := yielded + [executed];
    }
    if group != [] {
      yielded, w := Flush(x, calls, |calls| - |group|, |calls|, before, group, yielded, w);
    }
  }

  /** Runs the collected group and yields its results. */
  method Flush(x: Executor, calls: seq<PreparedCall>, ghost lo: nat, ghost hi: nat, ghost before: World,
               group: seq<PreparedCall>, yielded: seq<ExecutedCall>, world: World)
    returns (yielded': seq<ExecutedCall>, w: World)
    requires Assumed(x, calls) && Collecting(x, calls, before, lo, hi, group, yielded, world)
    ensures Collecting(x, calls, before, hi, hi, [], yielded', w)
  {
    var results;
    results, w := RunGroup(x, group, world);
    yielded' := yielded + results;
    assert forall k :: lo <= k < hi ==> results[k - lo] == ResultOf(x, calls, before, k);
  }
}
