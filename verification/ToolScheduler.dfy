/**
 The tool call scheduler: contiguous groups of concurrency-safe calls run in parallel, every other
 call is a barrier, and results are yielded in provider order.

 An executor call is a little program of atomic steps on a world that all calls share, so the steps
 of the calls of a group may interleave in any way. The state machine below is the generator with
 its group; `Next` allows every interleaving.
 */
module ToolScheduler {
  import opened Json

  type World(!new)
  type Local(!new)

  datatype Outcome = Fulfilled(result: string) | Rejected(reason: string)
  datatype DriftStatus = Ok | Warn | Block
  datatype Drift = Drift(status: DriftStatus, reason: string)

  datatype PreparedCall = PreparedCall(
    index: int, name: string, args: Record, attemptId: string,
    argumentError: Option<string>, drift: Option<Drift>, canRunConcurrently: bool)

  datatype Progress = Continue(local: Local, world: World) | Settle(outcome: Outcome, world: World)

  /**
   What the caller supplies. `begin` and `step` are the injected executor; `rank` bounds the number
   of steps it still takes. `blockedResult`, if it is given, words the result of a blocked call and may
   throw.
   */
  datatype Executor = Executor(
    begin: PreparedCall -> Local, step: (PreparedCall, Local, World) -> Progress,
    rank: (PreparedCall, Local) -> nat,
    codec: Codec, blockedResult: Option<Drift -> Outcome>)

  /** The envelope of a call that failed before it had a result of its own. */
  function FailedEnvelope(message: string): Json {
    Obj(map["success" := Bool(false), "error" := Str(message)])
  }

  function Refused(x: Executor, message: string): string { x.codec.stringify(FailedEnvelope(message)) }

  function BlockReason(d: Drift): string {
    if d.reason != "" then d.reason else "Blocked by TaskContext drift guard"
  }

  /** Every promise of the executor settles. */
  ghost predicate Settles(x: Executor) {
    forall c, l, w :: x.step(c, l, w).Continue? ==> x.rank(c, x.step(c, l, w).local) < x.rank(c, l)
  }

  /** The call leaves the world as it is, at every step. */
  ghost predicate ReadOnly(x: Executor, c: PreparedCall) {
    forall l, w :: x.step(c, l, w).world == w
  }

  /** The declaration of concurrency safety is truthful. */
  ghost predicate SafeCallsRead(x: Executor, calls: seq<PreparedCall>) {
    forall i :: 0 <= i < |calls| && calls[i].canRunConcurrently ==> ReadOnly(x, calls[i])
  }

  datatype ExecutedCall = ExecutedCall(prepared: PreparedCall, result: string)

  /** The outcome of a call that never reaches the executor. */
  function Gate(x: Executor, c: PreparedCall): Option<Outcome> {
    if c.argumentError.Some? && c.argumentError.value != "" then Some(Fulfilled(Refused(x, c.argumentError.value)))
    else if c.drift.Some? && c.drift.value.status == Block then
      Some(if x.blockedResult.Some? then x.blockedResult.value(c.drift.value)
           else Fulfilled(Refused(x, BlockReason(c.drift.value))))
    else None
  }

  /** A rejection becomes a failed result of the same call. */
  function Report(x: Executor, c: PreparedCall, outcome: Outcome): (e: ExecutedCall)
    ensures e.prepared == c
  {
    match outcome
    case Fulfilled(result) => ExecutedCall(c, result)
    case Rejected(reason) => ExecutedCall(c, Refused(x, "Tool execution error: " + reason))
  }

  // ----- One at a time ------------------------------------------------------------------------

  /** The rest of a call, undisturbed. */
  ghost function Finish(x: Executor, c: PreparedCall, l: Local, w: World): (Outcome, World)
    requires Settles(x)
    decreases x.rank(c, l)
  {
    match x.step(c, l, w)
    case Settle(outcome, w') => (outcome, w')
    case Continue(l', w') => Finish(x, c, l', w')
  }

  /** A whole call, undisturbed. */
  ghost function Alone(x: Executor, c: PreparedCall, w: World): (Outcome, World)
    requires Settles(x)
  {
    match Gate(x, c)
    case Some(outcome) => (outcome, w)
    case None => Finish(x, c, x.begin(c), w)
  }

  /** The world after the first `n` calls ran one at a time in provider order. */
  ghost function WorldAfter(x: Executor, calls: seq<PreparedCall>, w: World, n: nat): World
    requires Settles(x) && n <= |calls|
  {
    if n == 0 then w else Alone(x, calls[n - 1], WorldAfter(x, calls, w, n - 1)).1
  }

  ghost function ResultOf(x: Executor, calls: seq<PreparedCall>, w: World, i: nat): ExecutedCall
    requires Settles(x) && i < |calls|
  {
    Report(x, calls[i], Alone(x, calls[i], WorldAfter(x, calls, w, i)).0)
  }

  /** The results of running the first `n` calls one at a time in provider order. */
  ghost function Sequential(x: Executor, calls: seq<PreparedCall>, w: World, n: nat): (r: seq<ExecutedCall>)
    requires Settles(x) && n <= |calls|
    ensures |r| == n && forall i :: 0 <= i < n ==> r[i] == ResultOf(x, calls, w, i)
  {
    seq(n, i requires 0 <= i < n => ResultOf(x, calls, w, i))
  }

  lemma {:induction false} ReadOnlyFinish(x: Executor, c: PreparedCall, l: Local, w: World)
    requires Settles(x) && ReadOnly(x, c)
    ensures Finish(x, c, l, w).1 == w
    decreases x.rank(c, l)
  {
    if x.step(c, l, w).Continue? {
      assert x.step(c, l, w).world == w;
      ReadOnlyFinish(x, c, x.step(c, l, w).local, w);
    }
  }

  // ----- Ordering of a group's results ----------------------------------------------------------

  function Insert(e: ExecutedCall, sorted: seq<ExecutedCall>): seq<ExecutedCall> {
    if sorted == [] || e.prepared.index <= sorted[0].prepared.index then [e] + sorted
    else [sorted[0]] + Insert(e, sorted[1..])
  }

  /** The stable sort by call index. */
  function SortByIndex(s: seq<ExecutedCall>): seq<ExecutedCall> {
    if s == [] then [] else Insert(s[0], SortByIndex(s[1..]))
  }

  predicate Ascending(s: seq<ExecutedCall>) {
    forall i :: 0 <= i < |s| - 1 ==> s[i].prepared.index <= s[i + 1].prepared.index
  }

  lemma {:induction false} InsertAscends(e: ExecutedCall, s: seq<ExecutedCall>)
    requires Ascending(s)
    ensures Ascending(Insert(e, s))
    ensures s != [] && s[0].prepared.index < e.prepared.index ==> Insert(e, s)[0] == s[0]
  {
    if s != [] && s[0].prepared.index < e.prepared.index {
      forall i | 0 <= i < |s[1..]| - 1
        ensures s[1..][i].prepared.index <= s[1..][i + 1].prepared.index
      {
        assert s[i + 1].prepared.index <= s[i + 2].prepared.index;
      }
      InsertAscends(e, s[1..]);
      if |s| > 1 {
        assert s[0].prepared.index <= s[1].prepared.index;
      }
    }
  }

  /** Sorting leaves a list alone exactly when its indices already ascend. */
  lemma {:induction false} SortIsIdentity(s: seq<ExecutedCall>)
    ensures Ascending(SortByIndex(s))
    ensures SortByIndex(s) == s <==> Ascending(s)
  {
    if s != [] {
      SortIsIdentity(s[1..]);
      InsertAscends(s[0], SortByIndex(s[1..]));
      if Ascending(s) {
        forall i | 0 <= i < |s[1..]| - 1
          ensures s[1..][i].prepared.index <= s[1..][i + 1].prepared.index
        {
          assert s[i + 1].prepared.index <= s[i + 2].prepared.index;
        }
        assert |s| > 1 ==> s[0].prepared.index <= s[1].prepared.index;
        assert s == [s[0]] + s[1..];
      }
    }
  }

  // ----- The machine ----------------------------------------------------------------------------

  datatype Status = Waiting | Running(local: Local) | Settled(executed: ExecutedCall)

  /** Where the generator is: in its loop, awaiting a group, yielding its results, awaiting a barrier. */
  datatype Phase = Looping | AwaitingGroup | Yielding(queue: seq<ExecutedCall>) | AwaitingOne | Finished

  /** `group` holds positions of the calls collected so far; `next` is the position the loop is at. */
  datatype State = State(
    next: nat, group: seq<nat>, phase: Phase, status: seq<Status>, world: World,
    yielded: seq<ExecutedCall>)

  function Limit(maxParallel: Option<int>): (limit: nat)
    ensures limit >= 1
  {
    match maxParallel
    case None => 6
    case Some(n) => if n < 1 then 1 else n
  }

  function Initial(calls: seq<PreparedCall>, w: World): State {
    State(0, [], Looping, seq(|calls|, _ => Waiting), w, [])
  }

  /** The group's settled results, in the order in which its calls were collected. */
  function Collected(group: seq<nat>, status: seq<Status>): (r: seq<ExecutedCall>)
    requires forall k :: 0 <= k < |group| ==> group[k] < |status| && status[group[k]].Settled?
    ensures |r| == |group|
    ensures forall k :: 0 <= k < |group| ==> r[k] == status[group[k]].executed
  {
    seq(|group|, k requires 0 <= k < |group| => status[group[k]].executed)
  }

  /** Call `i` may start or take a step: it belongs to the group or is the barrier awaited. */
  predicate Active(s: State, i: nat) {
    (s.phase.AwaitingGroup? && i in s.group) || (s.phase.AwaitingOne? && i == s.next)
  }

  ghost predicate Loop(calls: seq<PreparedCall>, limit: nat, s: State, s': State) {
    && s.phase.Looping? && |s.status| == |calls|
    && if s.next < |calls| && calls[s.next].canRunConcurrently then
         var group := s.group + [s.next];
         s' == s.(next := s.next + 1, group := group,
                  phase := if |group| < limit then Looping else AwaitingGroup)
       else if s.group != [] then s' == s.(phase := AwaitingGroup)
       else if s.next < |calls| then s' == s.(phase := AwaitingOne)
       else s' == s.(phase := Finished)
  }

  ghost predicate Start(x: Executor, calls: seq<PreparedCall>, s: State, s': State, i: nat) {
    && Active(s, i) && i < |calls| == |s.status| && s.status[i].Waiting?
    && s' == s.(status := s.status[i :=
         match Gate(x, calls[i])
         case Some(outcome) => Settled(Report(x, calls[i], outcome))
         case None => Running(x.begin(calls[i]))])
  }

  ghost predicate Advance(x: Executor, calls: seq<PreparedCall>, s: State, s': State, i: nat) {
    && Active(s, i) && i < |calls| == |s.status| && s.status[i].Running?
    && match x.step(calls[i], s.status[i].local, s.world)
       case Continue(l, w) => s' == s.(status := s.status[i := Running(l)], world := w)
       case Settle(outcome, w) =>
         s' == s.(status := s.status[i := Settled(Report(x, calls[i], outcome))], world := w)
  }

  /** All promises of the group have settled: its results are sorted and queued. */
  ghost predicate Gather(s: State, s': State) {
    && s.phase.AwaitingGroup?
    && (forall k :: 0 <= k < |s.group| ==> s.group[k] < |s.status| && s.status[s.group[k]].Settled?)
    && s' == s.(phase := Yielding(SortByIndex(Collected(s.group, s.status))))
  }

  ghost predicate Yield(s: State, s': State) {
    && s.phase.Yielding?
    && if s.phase.queue == [] then s' == s.(phase := Looping, group := [])
       else s' == s.(phase := Yielding(s.phase.queue[1..]), yielded := s.yielded + [s.phase.queue[0]])
  }

  ghost predicate YieldOne(s: State, s': State) {
    && s.phase.AwaitingOne? && s.next < |s.status| && s.status[s.next].Settled?
    && s' == s.(phase := Looping, next := s.next + 1, yielded := s.yielded + [s.status[s.next].executed])
  }

  ghost predicate Next(x: Executor, calls: seq<PreparedCall>, limit: nat, s: State, s': State) {
    || Loop(calls, limit, s, s')
    || (exists i :: Start(x, calls, s, s', i) || Advance(x, calls, s, s', i))
    || Gather(s, s') || Yield(s, s') || YieldOne(s, s')
  }

  // ----- The invariant --------------------------------------------------------------------------

  /** The calls as the preparation step numbers them: indices ascend with positions. */
  predicate Numbered(calls: seq<PreparedCall>) {
    forall i, j :: 0 <= i <= j < |calls| ==> calls[i].index <= calls[j].index
  }

  ghost predicate Assumed(x: Executor, calls: seq<PreparedCall>) {
    Settles(x) && SafeCallsRead(x, calls) && Numbered(calls)
  }

  /** A call that runs without changing the world is on its way to the result it has alone. */
  ghost predicate OnCourse(x: Executor, calls: seq<PreparedCall>, w: World, status: Status, world: World, i: nat)
    requires Settles(x) && i < |calls|
  {
    match status
    case Waiting => true
    case Running(l) =>
      Gate(x, calls[i]).None? && Report(x, calls[i], Finish(x, calls[i], l, world).0) == ResultOf(x, calls, w, i)
    case Settled(e) => e == ResultOf(x, calls, w, i)
  }

  /** The awaited barrier is on its way to its own result and to the world it leaves alone. */
  ghost predicate BarrierOnCourse(x: Executor, calls: seq<PreparedCall>, w: World, s: State)
    requires Settles(x) && s.next < |calls| == |s.status|
  {
    var i := s.next;
    match s.status[i]
    case Waiting => s.world == WorldAfter(x, calls, w, i)
    case Running(l) =>
      Gate(x, calls[i]).None? && Finish(x, calls[i], l, s.world) == Alone(x, calls[i], WorldAfter(x, calls, w, i))
    case Settled(e) => e == ResultOf(x, calls, w, i) && s.world == WorldAfter(x, calls, w, i + 1)
  }

  /** The first position of the current group. */
  function Low(s: State): int { s.next - |s.group| }

  /** The group is a run of consecutive concurrency-safe calls that ends where the loop is. */
  ghost predicate GroupShape(calls: seq<PreparedCall>, limit: nat, s: State) {
    && |s.status| == |calls| && s.next <= |calls| && Low(s) >= 0 && |s.group| <= limit
    && (forall k :: 0 <= k < |s.group| ==> s.group[k] == Low(s) + k)
    && (forall i :: Low(s) <= i < s.next ==> calls[i].canRunConcurrently)
    && (s.phase.Looping? ==> |s.group| < limit)
    && (s.phase.AwaitingOne? ==> s.group == [] && s.next < |calls| && !calls[s.next].canRunConcurrently)
    && (s.phase.Finished? ==> s.group == [] && s.next == |calls|)
  }

  ghost predicate StatusShape(s: State)
    requires 0 <= Low(s) && s.next <= |s.status|
  {
    && (forall i :: 0 <= i < Low(s) ==> s.status[i].Settled?)
    && (forall i :: s.next <= i < |s.status| && !(s.phase.AwaitingOne? && i == s.next) ==> s.status[i].Waiting?)
    && (s.phase.Looping? ==> forall i :: Low(s) <= i < |s.status| ==> s.status[i].Waiting?)
    && (s.phase.Yielding? ==> forall i :: 0 <= i < s.next ==> s.status[i].Settled?)
  }

  ghost predicate WorldShape(x: Executor, calls: seq<PreparedCall>, w: World, s: State)
    requires Settles(x) && 0 <= Low(s) && s.next <= |calls| == |s.status|
  {
    if s.phase.AwaitingOne? then s.next < |calls| && BarrierOnCourse(x, calls, w, s)
    else
      && (forall i :: Low(s) <= i <= s.next ==> s.world == WorldAfter(x, calls, w, i))
      && (forall i :: Low(s) <= i < s.next ==> OnCourse(x, calls, w, s.status[i], s.world, i))
  }

  ghost predicate YieldShape(x: Executor, calls: seq<PreparedCall>, w: World, s: State)
    requires Settles(x) && 0 <= Low(s) && s.next <= |calls|
  {
    if s.phase.Yielding? then s.yielded + s.phase.queue == Sequential(x, calls, w, s.next)
    else s.yielded == Sequential(x, calls, w, Low(s))
  }

  ghost predicate Inv(x: Executor, calls: seq<PreparedCall>, limit: nat, w: World, s: State) {
    && Assumed(x, calls) && limit >= 1
    && GroupShape(calls, limit, s) && StatusShape(s) && WorldShape(x, calls, w, s) && YieldShape(x, calls, w, s)
  }

  lemma InitialInv(x: Executor, calls: seq<PreparedCall>, limit: nat, w: World)
    requires Assumed(x, calls) && limit >= 1
    ensures Inv(x, calls, limit, w, Initial(calls, w))
  {
  }

  lemma SafeCallKeepsWorld(x: Executor, calls: seq<PreparedCall>, w: World, i: nat)
    requires Assumed(x, calls) && i < |calls| && calls[i].canRunConcurrently
    ensures WorldAfter(x, calls, w, i + 1) == WorldAfter(x, calls, w, i)
  {
    if Gate(x, calls[i]).None? {
      ReadOnlyFinish(x, calls[i], x.begin(calls[i]), WorldAfter(x, calls, w, i));
    }
  }

  lemma LoopInv(x: Executor, calls: seq<PreparedCall>, limit: nat, w: World, s: State, s': State)
    requires Inv(x, calls, limit, w, s) && Loop(calls, limit, s, s')
    ensures Inv(x, calls, limit, w, s')
  {
    if s.next < |calls| && calls[s.next].canRunConcurrently {
      SafeCallKeepsWorld(x, calls, w, s.next);
    }
  }

  lemma StartInv(x: Executor, calls: seq<PreparedCall>, limit: nat, w: World, s: State, s': State, i: nat)
    requires Inv(x, calls, limit, w, s) && Start(x, calls, s, s', i)
    ensures Inv(x, calls, limit, w, s')
  {
  }

  lemma AdvanceInv(x: Executor, calls: seq<PreparedCall>, limit: nat, w: World, s: State, s': State, i: nat)
    requires Inv(x, calls, limit, w, s) && Advance(x, calls, s, s', i)
    ensures Inv(x, calls, limit, w, s')
  {
    if s.phase.AwaitingGroup? {
      assert s.world == WorldAfter(x, calls, w, i);
      assert x.step(calls[i], s.status[i].local, s.world).world == s.world;
    }
  }

  lemma SequentialAscends(x: Executor, calls: seq<PreparedCall>, w: World, lo: nat, n: nat)
    requires Assumed(x, calls) && lo <= n <= |calls|
    ensures Ascending(Sequential(x, calls, w, n)[lo..])
    ensures Sequential(x, calls, w, lo) + Sequential(x, calls, w, n)[lo..] == Sequential(x, calls, w, n)
  {
    var all := Sequential(x, calls, w, n);
    forall k | 0 <= k < |all[lo..]| - 1
      ensures all[lo..][k].prepared.index <= all[lo..][k + 1].prepared.index
    {
      assert all[lo..][k] == ResultOf(x, calls, w, lo + k);
      assert all[lo..][k + 1] == ResultOf(x, calls, w, lo + k + 1);
    }
  }

  lemma CollectedIsSequential(x: Executor, calls: seq<PreparedCall>, limit: nat, w: World, s: State)
    requires Inv(x, calls, limit, w, s) && s.phase.AwaitingGroup?
    requires forall k :: 0 <= k < |s.group| ==> s.group[k] < |s.status| && s.status[s.group[k]].Settled?
    ensures Collected(s.group, s.status) == Sequential(x, calls, w, s.next)[Low(s)..]
    ensures forall i :: Low(s) <= i < s.next ==> s.status[i].Settled?
  {
    forall i | Low(s) <= i < s.next
      ensures s.status[i].Settled? && s.status[i].executed == ResultOf(x, calls, w, i)
    {
      assert s.group[i - Low(s)] == i;
      assert OnCourse(x, calls, w, s.status[i], s.world, i);
    }
  }

  /** A settled group holds its sequential results in ascending order, so the sort changes nothing. */
  lemma GroupIsSequential(x: Executor, calls: seq<PreparedCall>, limit: nat, w: World, s: State)
    requires Inv(x, calls, limit, w, s) && s.phase.AwaitingGroup?
    requires forall k :: 0 <= k < |s.group| ==> s.group[k] < |s.status| && s.status[s.group[k]].Settled?
    ensures var collected := Collected(s.group, s.status);
          && SortByIndex(collected) == collected
            && s.yielded + collected == Sequential(x, calls, w, s.next)
    ensures forall i :: Low(s) <= i < s.next ==> s.status[i].Settled?
  {
    CollectedIsSequential(x, calls, limit, w, s);
    SequentialAscends(x, calls, w, Low(s), s.next);
    SortIsIdentity(Collected(s.group, s.status));
  }

  lemma GatherInv(x: Executor, calls: seq<PreparedCall>, limit: nat, w: World, s: State, s': State)
    requires Inv(x, calls, limit, w, s) && Gather(s, s')
    ensures Inv(x, calls, limit, w, s')
  {
    GroupIsSequential(x, calls, limit, w, s);
  }

  lemma YieldInv(x: Executor, calls: seq<PreparedCall>, limit: nat, w: World, s: State, s': State)
    requires Inv(x, calls, limit, w, s) && Yield(s, s')
    ensures Inv(x, calls, limit, w, s')
  {
    if s.phase.queue != [] {
      assert s.phase.queue == [s.phase.queue[0]] + s.phase.queue[1..];
      assert s'.yielded + s'.phase.queue == s.yielded + s.phase.queue;
    } else {
      assert s.yielded + [] == s.yielded;
    }
  }

  lemma YieldOneInv(x: Executor, calls: seq<PreparedCall>, limit: nat, w: World, s: State, s': State)
    requires Inv(x, calls, limit, w, s) && YieldOne(s, s')
    ensures Inv(x, calls, limit, w, s')
  {
    assert s'.yielded == Sequential(x, calls, w, s'.next);
  }

  /** Every step keeps the invariant, whatever is chosen to run next. */
  lemma NextInv(x: Executor, calls: seq<PreparedCall>, limit: nat, w: World, s: State, s': State)
    requires Inv(x, calls, limit, w, s) && Next(x, calls, limit, s, s')
    ensures Inv(x, calls, limit, w, s')
  {
    if Loop(calls, limit, s, s') {
      LoopInv(x, calls, limit, w, s, s');
    } else if Gather(s, s') {
      GatherInv(x, calls, limit, w, s, s');
    } else if Yield(s, s') {
      YieldInv(x, calls, limit, w, s, s');
    } else if YieldOne(s, s') {
      YieldOneInv(x, calls, limit, w, s, s');
    } else {
      var i :| Start(x, calls, s, s', i) || Advance(x, calls, s, s', i);
      if Start(x, calls, s, s', i) {
        StartInv(x, calls, limit, w, s, s', i);
      } else {
        AdvanceInv(x, calls, limit, w, s, s', i);
      }
    }
  }

  // ----- What every run does --------------------------------------------------------------------

  ghost predicate IsRun(x: Executor, calls: seq<PreparedCall>, limit: nat, w: World, run: seq<State>) {
    && run != [] && run[0] == Initial(calls, w)
    && forall k :: 0 <= k < |run| - 1 ==> Next(x, calls, limit, run[k], run[k + 1])
  }

  lemma {:induction false} RunInv(x: Executor, calls: seq<PreparedCall>, limit: nat, w: World, run: seq<State>)
    requires Assumed(x, calls) && limit >= 1 && IsRun(x, calls, limit, w, run)
    ensures Inv(x, calls, limit, w, run[|run| - 1])
    decreases |run|
  {
    if |run| == 1 {
      InitialInv(x, calls, limit, w);
    } else {
      var before := run[..|run| - 1];
      forall k | 0 <= k < |before| - 1 ensures Next(x, calls, limit, before[k], before[k + 1]) {
        assert Next(x, calls, limit, run[k], run[k + 1]);
      }
      RunInv(x, calls, limit, w, before);
      assert Next(x, calls, limit, run[|run| - 2], run[|run| - 1]);
      NextInv(x, calls, limit, w, run[|run| - 2], run[|run| - 1]);
    }
  }

  /**
   Refinement: however the calls of the groups interleave, what has been yielded is a prefix of the
   results of running all calls one at a time in provider order; a finished run has yielded exactly
   one result per call and leaves the world that running one at a time leaves.
   */
  lemma InterleavingIsSequential(x: Executor, calls: seq<PreparedCall>, maxParallel: Option<int>, w: World,
                                 run: seq<State>)
    requires Assumed(x, calls) && IsRun(x, calls, Limit(maxParallel), w, run)
    ensures var s := run[|run| - 1];
          && s.yielded <= Sequential(x, calls, w, |calls|)
            && (s.phase.Finished? ==>
                  s.yielded == Sequential(x, calls, w, |calls|) && s.world == WorldAfter(x, calls, w, |calls|))
  {
    RunInv(x, calls, Limit(maxParallel), w, run);
    var s := run[|run| - 1];
    var n := if s.phase.Yielding? then s.next else Low(s);
    assert Sequential(x, calls, w, n) <= Sequential(x, calls, w, |calls|);
    if s.phase.Yielding? {
      assert s.yielded <= s.yielded + s.phase.queue;
    }
  }

  ghost function InFlight(s: State): set<int> {
    set i | 0 <= i < |s.status| && s.status[i].Running?
  }

  ghost function Interval(lo: int, hi: int): (r: set<int>)
    requires lo <= hi
    ensures |r| == hi - lo
    ensures forall i :: i in r <==> lo <= i < hi
    decreases hi - lo
  {
    if lo == hi then {} else Interval(lo, hi - 1) + {hi - 1}
  }

  lemma SubsetSize(a: set<int>, b: set<int>)
    requires a <= b
    ensures |a| <= |b|
  {
    assert b == a + (b - a);
  }

  /** Never more calls in flight than the limit, and a gated call is never in flight at all. */
  lemma InFlightIsBounded(x: Executor, calls: seq<PreparedCall>, maxParallel: Option<int>, w: World,
                          run: seq<State>)
    requires Assumed(x, calls) && IsRun(x, calls, Limit(maxParallel), w, run)
    ensures var s := run[|run| - 1];
          && |InFlight(s)| <= Limit(maxParallel)
            && forall i :: i in InFlight(s) ==> i < |calls| && Gate(x, calls[i]).None?
  {
    var limit := Limit(maxParallel);
    RunInv(x, calls, limit, w, run);
    var s := run[|run| - 1];
    if s.phase.AwaitingOne? {
      assert InFlight(s) <= {s.next as int};
      SubsetSize(InFlight(s), {s.next as int});
    } else {
      SubsetSize(InFlight(s), Interval(Low(s), s.next));
    }
  }

  /**
   Barriers: of two calls that are not both concurrency-safe, the later one starts only after the
   earlier one has settled.
   */
  lemma BarriersHold(x: Executor, calls: seq<PreparedCall>, maxParallel: Option<int>, w: World,
                     run: seq<State>, i: nat, j: nat)
    requires Assumed(x, calls) && IsRun(x, calls, Limit(maxParallel), w, run)
    requires i < j < |calls| && !(calls[i].canRunConcurrently && calls[j].canRunConcurrently)
    ensures var s := run[|run| - 1];
            |s.status| == |calls| && (!s.status[j].Waiting? ==> s.status[i].Settled?)
  {
    RunInv(x, calls, Limit(maxParallel), w, run);
  }

  // ----- Every run ends -------------------------------------------------------------------------

  ghost function Work(x: Executor, c: PreparedCall, status: Status): nat {
    match status
    case Waiting => x.rank(c, x.begin(c)) + 2
    case Running(l) => x.rank(c, l) + 1
    case Settled(_) => 0
  }

  ghost function TotalWork(x: Executor, calls: seq<PreparedCall>, status: seq<Status>, n: nat): nat
    requires n <= |calls| == |status|
  {
    if n == 0 then 0 else TotalWork(x, calls, status, n - 1) + Work(x, calls[n - 1], status[n - 1])
  }

  lemma {:induction false} UpdateWork(x: Executor, calls: seq<PreparedCall>, status: seq<Status>, i: nat, st: Status,
                                      n: nat)
    requires i < |calls| == |status| && n <= |calls|
    ensures TotalWork(x, calls, status[i := st], n) == TotalWork(x, calls, status, n)
            + (if i < n then Work(x, calls[i], st) - Work(x, calls[i], status[i]) else 0)
  {
    if n > 0 {
      UpdateWork(x, calls, status, i, st, n - 1);
    }
  }

  ghost function PhaseRank(s: State): nat {
    match s.phase
    case Looping => if s.group != [] then 5 else 2
    case AwaitingGroup => 4
    case Yielding(_) => 3
    case AwaitingOne => 1
    case Finished => 0
  }

  /** Work to do, then results to yield, then calls to read, then the phase. */
  ghost predicate Descends(x: Executor, calls: seq<PreparedCall>, s: State, s': State)
    requires |s.status| == |calls| == |s'.status|
  {
    var work, work' := TotalWork(x, calls, s.status, |calls|), TotalWork(x, calls, s'.status, |calls|);
    || work' < work
    || (work' == work && |s'.yielded| > |s.yielded|)
    || (work' == work && |s'.yielded| == |s.yielded| && s'.next > s.next)
    || (work' == work && |s'.yielded| == |s.yielded| && s'.next == s.next && PhaseRank(s') < PhaseRank(s))
  }

  lemma CallStepDescends(x: Executor, calls: seq<PreparedCall>, s: State, s': State, i: nat)
    requires Settles(x) && |s.status| == |calls|
    requires Start(x, calls, s, s', i) || Advance(x, calls, s, s', i)
    ensures |s'.status| == |calls| && Descends(x, calls, s, s')
    ensures s'.yielded == s.yielded && s'.next == s.next
  {
    UpdateWork(x, calls, s.status, i, s'.status[i], |calls|);
    assert s'.status == s.status[i := s'.status[i]];
    assert Work(x, calls[i], s'.status[i]) < Work(x, calls[i], s.status[i]);
  }

  /** No run goes on for ever: every step descends a well-founded order. */
  lemma EveryStepDescends(x: Executor, calls: seq<PreparedCall>, limit: nat, w: World, s: State, s': State)
    requires Inv(x, calls, limit, w, s) && Next(x, calls, limit, s, s')
    ensures |s'.status| == |calls| && Descends(x, calls, s, s')
    ensures |s'.yielded| <= |calls| && s'.next <= |calls|
  {
    NextInv(x, calls, limit, w, s, s');
    if Loop(calls, limit, s, s') || Gather(s, s') || Yield(s, s') || YieldOne(s, s') {
    } else {
      var i: nat :| Start(x, calls, s, s', i) || Advance(x, calls, s, s', i);
      CallStepDescends(x, calls, s, s', i);
    }
  }

  /** No run gets stuck: until it is finished some step is possible. */
  lemma SomeStepIsPossible(x: Executor, calls: seq<PreparedCall>, limit: nat, w: World, s: State) returns (s': State)
    requires Inv(x, calls, limit, w, s) && !s.phase.Finished?
    ensures Next(x, calls, limit, s, s')
  {
    match s.phase
    case Looping =>
      if s.next < |calls| && calls[s.next].canRunConcurrently {
        var group := s.group + [s.next];
        s' := s.(next := s.next + 1, group := group, phase := if |group| < limit then Looping else AwaitingGroup);
      } else if s.group != [] {
        s' := s.(phase := AwaitingGroup);
      } else if s.next < |calls| {
        s' := s.(phase := AwaitingOne);
      } else {
        s' := s.(phase := Finished);
      }
      assert Loop(calls, limit, s, s');
    case AwaitingGroup =>
      if k :| 0 <= k < |s.group| && !s.status[s.group[k]].Settled? {
        s' := CallStep(x, calls, limit, w, s, s.group[k]);
      } else {
        s' := s.(phase := Yielding(SortByIndex(Collected(s.group, s.status))));
        assert Gather(s, s');
      }
    case Yielding(queue) =>
      s' := if queue == [] then s.(phase := Looping, group := [])
            else s.(phase := Yielding(queue[1..]), yielded := s.yielded + [queue[0]]);
      assert Yield(s, s');
    case AwaitingOne =>
      if s.status[s.next].Settled? {
        s' := s.(phase := Looping, next := s.next + 1, yielded := s.yielded + [s.status[s.next].executed]);
        assert YieldOne(s, s');
      } else {
        s' := CallStep(x, calls, limit, w, s, s.next);
      }
  }

  lemma CallStep(x: Executor, calls: seq<PreparedCall>, limit: nat, w: World, s: State, i: nat) returns (s': State)
    requires Inv(x, calls, limit, w, s) && Active(s, i) && i < |calls| && !s.status[i].Settled?
    ensures Next(x, calls, limit, s, s')
  {
    if s.status[i].Waiting? {
      s' := s.(status := s.status[i :=
        match Gate(x, calls[i])
        case Some(outcome) => Settled(Report(x, calls[i], outcome))
        case None => Running(x.begin(calls[i]))]);
      assert Start(x, calls, s, s', i);
    } else {
      match x.step(calls[i], s.status[i].local, s.world)
      case Continue(l, v) => s' := s.(status := s.status[i := Running(l)], world := v);
      case Settle(outcome, v) =>
        s' := s.(status := s.status[i := Settled(Report(x, calls[i], outcome))], world := v);
    }
    assert s.status[i].Running? ==> Advance(x, calls, s, s', i);
  }

  /** From every state that a run reaches, draining goes through to the end. */
  lemma {:induction false} DrainingCompletes(x: Executor, calls: seq<PreparedCall>, limit: nat, w: World, s: State)
    returns (run: seq<State>)
    requires Inv(x, calls, limit, w, s)
    ensures run != [] && run[0] == s && run[|run| - 1].phase.Finished?
    ensures forall k :: 0 <= k < |run| - 1 ==> Next(x, calls, limit, run[k], run[k + 1])
    decreases TotalWork(x, calls, s.status, |calls|), |calls| - |s.yielded|, |calls| - s.next, PhaseRank(s)
  {
    if s.phase.Finished? {
      run := [s];
    } else {
      var s' := SomeStepIsPossible(x, calls, limit, w, s);
      EveryStepDescends(x, calls, limit, w, s, s');
      NextInv(x, calls, limit, w, s, s');
      var rest := DrainingCompletes(x, calls, limit, w, s');
      run := [s] + rest;
    }
  }
}
