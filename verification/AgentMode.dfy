/**
 The lifecycle of the agent's working mode: immediate and deferred cycling through BUILD, PLAN and
 AUTO, explicit transitions, and completion of a plan, with the store as their projection.
 */
module AgentMode {
  import opened Json
  import opened Text

  datatype Mode = Interactive | Plan | Auto

  function NextMode(mode: Mode): Mode {
    match mode
    case Interactive => Plan
    case Plan => Auto
    case Auto => Interactive
  }

  /** The fields of the application state that the controller owns. */
  datatype AppState = AppState(agentMode: Mode, planMode: bool, planReturnMode: Mode, currentPlan: Option<string>)

  /** The whole lifecycle state: the store's projection and the controller's own fields. */
  datatype Lifecycle = Lifecycle(app: AppState, pending: Option<Mode>, revision: nat, lastPlan: Option<string>)

  const INITIAL: Lifecycle := Lifecycle(AppState(Interactive, false, Interactive, None), None, 0, None)

  // ----- Transitions ----------------------------------------------------------------------------

  function AppliedTo(app: AppState, mode: Mode): AppState {
    if mode == Plan then
      AppState(Plan, true, if app.agentMode == Plan then app.planReturnMode else app.agentMode, None)
    else
      AppState(mode, false, mode, if app.agentMode == Plan then None else app.currentPlan)
  }

  function SetTo(s: Lifecycle, mode: Mode): Lifecycle { s.(pending := None, app := AppliedTo(s.app, mode)) }

  function Cycled(s: Lifecycle, defer: bool): Lifecycle {
    var current := s.app.agentMode;
    var next := NextMode(if s.pending.Some? then s.pending.value else current);
    if defer then s.(pending := if next == current then None else Some(next)) else SetTo(s, next)
  }

  function WithPendingApplied(s: Lifecycle): Lifecycle {
    if s.pending.None? then s else SetTo(s, s.pending.value)
  }

  function WithPlanCompleted(s: Lifecycle, plan: string, returnMode: Mode): Lifecycle {
    var mode := if s.pending.Some? && s.pending.value != Plan then s.pending.value else returnMode;
    Lifecycle(AppState(mode, false, mode, Some(Trim(plan))), None, s.revision + 1, Some(Trim(plan)))
  }

  function CompletedSince(s: Lifecycle, revision: int): Option<string> {
    if s.revision > revision then s.lastPlan else None
  }

  // ----- Runs -----------------------------------------------------------------------------------

  datatype Event =
    | Cycle(defer: bool)
    | SetMode(mode: Mode)
    | CompletePlan(plan: string, returnMode: Mode)
    | ApplyPending

  predicate Legal(e: Event) { e.CompletePlan? ==> e.returnMode != Plan }

  function Step(s: Lifecycle, e: Event): Lifecycle {
    match e
    case Cycle(defer) => Cycled(s, defer)
    case SetMode(mode) => SetTo(s, mode)
    case CompletePlan(plan, returnMode) => WithPlanCompleted(s, plan, returnMode)
    case ApplyPending => WithPendingApplied(s)
  }

  function Run(s: Lifecycle, events: seq<Event>): Lifecycle {
    if events == [] then s else Step(Run(s, events[..|events| - 1]), events[|events| - 1])
  }

  predicate AllLegal(events: seq<Event>) { forall i :: 0 <= i < |events| ==> Legal(events[i]) }

  /** The last mode other than PLAN that the store was in along a run, starting from `last`. */
  function LastBuildMode(s: Lifecycle, events: seq<Event>, last: Mode): Mode {
    if events == [] then last
    else
      var mode := Run(s, events).app.agentMode;
      if mode != Plan then mode else LastBuildMode(s, events[..|events| - 1], last)
  }

  function Completions(events: seq<Event>): seq<string> {
    if events == [] then []
    else Completions(events[..|events| - 1])
         + if events[|events| - 1].CompletePlan? then [Trim(events[|events| - 1].plan)] else []
  }

  predicate Coherent(s: Lifecycle) {
    && (s.app.planMode <==> s.app.agentMode == Plan)
    && s.app.planReturnMode != Plan
    && (s.app.agentMode != Plan ==> s.app.planReturnMode == s.app.agentMode)
    && (s.app.agentMode == Plan ==> s.app.currentPlan.None?)
    && s.pending != Some(s.app.agentMode)
  }

  lemma StepIsCoherent(s: Lifecycle, e: Event)
    requires Coherent(s) && Legal(e)
    ensures var s' := Step(s, e);
          && Coherent(s')
            && s'.revision == s.revision + (if e.CompletePlan? then 1 else 0)
            && s'.lastPlan == (if e.CompletePlan? then Some(Trim(e.plan)) else s.lastPlan)
            && (s'.app.agentMode == Plan ==> s'.app.planReturnMode == s.app.planReturnMode)
  {
  }

  /**
   Over every run: the plan flag holds exactly in PLAN, a pending mode differs from the current one,
   the return mode is the last mode other than PLAN, and the completed plans are counted.
   */
  lemma {:induction false} EveryRunIsCoherent(events: seq<Event>)
    requires AllLegal(events)
    ensures var s := Run(INITIAL, events);
          && Coherent(s)
            && s.app.planReturnMode == LastBuildMode(INITIAL, events, Interactive)
            && s.revision == |Completions(events)|
            && (if Completions(events) == [] then s.lastPlan.None?
                else s.lastPlan == Some(Completions(events)[|Completions(events)| - 1]))
  {
    if events != [] {
      EveryRunIsCoherent(events[..|events| - 1]);
      StepIsCoherent(Run(INITIAL, events[..|events| - 1]), events[|events| - 1]);
    }
  }

  lemma {:induction false} CompletionsSplit(before: seq<Event>, after: seq<Event>)
    ensures Completions(before + after) == Completions(before) + Completions(after)
  {
    if after == [] {
      assert before + after == before;
    } else {
      var n := |after| - 1;
      assert (before + after)[..|before| + n] == before + after[..n];
      CompletionsSplit(before, after[..n]);
    }
  }

  /**
   A revision taken at some point reports a plan later on exactly when one was completed since, and then
   the newest.
   */
  lemma {:induction false} CompletedSinceIsExact(before: seq<Event>, after: seq<Event>)
    requires AllLegal(before) && AllLegal(after)
    ensures var r := CompletedSince(Run(INITIAL, before + after), Run(INITIAL, before).revision);
            if Completions(after) == [] then r.None?
            else r == Some(Completions(after)[|Completions(after)| - 1])
  {
    EveryRunIsCoherent(before);
    EveryRunIsCoherent(before + after);
    CompletionsSplit(before, after);
  }

  // ----- Deferred and immediate cycling ---------------------------------------------------------

  function Cycles(s: Lifecycle, k: nat, defer: bool): Lifecycle {
    if k == 0 then s else Cycled(Cycles(s, k - 1, defer), defer)
  }

  function Advance(mode: Mode, k: nat): Mode {
    if k == 0 then mode else NextMode(Advance(mode, k - 1))
  }

  /** Where cycling starts from: a staged mode, if there is one. */
  function Origin(s: Lifecycle): Mode { if s.pending.Some? then s.pending.value else s.app.agentMode }

  lemma {:induction false} ImmediateAdvances(s: Lifecycle, k: nat)
    requires k > 0
    ensures Cycles(s, k, false).app.agentMode == Advance(Origin(s), k) && Cycles(s, k, false).pending.None?
  {
    if k > 1 {
      ImmediateAdvances(s, k - 1);
    } else {
      assert Cycles(s, 0, false) == s && Advance(Origin(s), 0) == Origin(s);
    }
  }

  lemma {:induction false} DeferredAdvances(s: Lifecycle, k: nat)
    requires s.pending != Some(s.app.agentMode)
    ensures var target := Advance(Origin(s), k);
            Cycles(s, k, true) == s.(pending := if target == s.app.agentMode then None else Some(target))
  {
    if k > 0 {
      DeferredAdvances(s, k - 1);
    }
  }

  /**
   Any number of deferred cycles, applied, reaches the mode that as many immediate cycles reach,
   whatever was staged before; only when nothing is cycled does applying a staged mode change it.
   */
  lemma {:induction false} DeferralReachesSameMode(s: Lifecycle, k: nat)
    requires s.pending != Some(s.app.agentMode)
    ensures WithPendingApplied(Cycles(s, k, true)).app.agentMode == Cycles(s, k, false).app.agentMode
       <==> k > 0 || s.pending.None?
    ensures WithPendingApplied(Cycles(s, k, true)).pending.None?
  {
    DeferredAdvances(s, k);
    if k > 0 {
      ImmediateAdvances(s, k);
    }
  }

  /** Going once round the modes forgets the plan, and in PLAN also the mode to return to. */
  function OnceRound(app: AppState): AppState {
    app.(currentPlan := None, planReturnMode := if app.agentMode == Plan then Interactive else app.agentMode)
  }

  lemma {:induction false} RoundTrips(s: Lifecycle, k: nat)
    requires Coherent(s) && s.pending.None?
    ensures Advance(s.app.agentMode, k + 3) == Advance(s.app.agentMode, k)
    ensures Cycles(s, k + 3, false).app == OnceRound(Cycles(s, k, false).app)
    ensures Coherent(Cycles(s, k, false)) && Cycles(s, k, false).pending.None?
  {
    if k > 0 {
      RoundTrips(s, k - 1);
    } else {
      assert Cycles(s, 2, false) == Cycled(Cycles(s, 1, false), false);
      assert Advance(s.app.agentMode, 2) == NextMode(Advance(s.app.agentMode, 1));
    }
  }

  /** What `k` cycles lose when they are immediate: the current plan, or the mode to return to. */
  predicate CyclingLoses(app: AppState, k: nat) {
    match app.agentMode
    case Interactive => k >= 2 && k % 3 != 1 && app.currentPlan.Some?
    case Plan => k >= 3 && k % 3 == 0 && app.planReturnMode == Auto
    case Auto => (k >= 3 && k % 3 != 2 && app.currentPlan.Some?) || k % 3 == 2
  }

  /** The same when the next mode is staged, so that the first cycle passes over it. */
  predicate SkippingLoses(app: AppState, k: nat) {
    match app.agentMode
    case Interactive => k >= 4 && k % 3 != 0 && app.currentPlan.Some?
    case Plan => k % 3 == 2 && app.planReturnMode == Auto
    case Auto => (k >= 2 && k % 3 != 1 && app.currentPlan.Some?) || (k >= 4 && k % 3 == 1)
  }

  /** Where deferred and immediate cycling part, for every state and every staged mode. */
  predicate CyclingParts(app: AppState, staged: Option<Mode>, k: nat) {
    if staged.None? then CyclingLoses(app, k)
    else if k == 0 then true
    else if staged.value == NextMode(app.agentMode) then SkippingLoses(app, k)
    else CyclingLoses(app, k - 1)
  }

  lemma SmallCycles(s: Lifecycle)
    ensures Cycles(s, 1, false) == Cycled(s, false)
    ensures Cycles(s, 2, false) == Cycled(Cycles(s, 1, false), false)
    ensures Cycles(s, 3, false) == Cycled(Cycles(s, 2, false), false)
    ensures Cycles(s, 4, false) == Cycled(Cycles(s, 3, false), false)
    ensures Cycles(s, 5, false) == Cycled(Cycles(s, 4, false), false)
    ensures Advance(s.app.agentMode, 1) == NextMode(s.app.agentMode)
    ensures Advance(s.app.agentMode, 2) == NextMode(Advance(s.app.agentMode, 1))
    ensures Advance(s.app.agentMode, 3) == NextMode(Advance(s.app.agentMode, 2))
    ensures Advance(s.app.agentMode, 4) == NextMode(Advance(s.app.agentMode, 3))
    ensures Advance(s.app.agentMode, 5) == NextMode(Advance(s.app.agentMode, 4))
  {
  }

  /** The first immediate cycle uses up the staged mode. */
  lemma {:induction false} FirstCycle(s: Lifecycle, k: nat)
    requires k > 0
    ensures Cycles(s, k, false) == Cycles(SetTo(s, NextMode(Origin(s))), k - 1, false)
  {
    if k > 1 {
      FirstCycle(s, k - 1);
    } else {
      assert Cycles(s, 0, false) == s;
    }
  }

  lemma {:induction false} NothingStaged(s: Lifecycle, k: nat)
    requires Coherent(s) && s.pending.None?
    ensures WithPendingApplied(Cycles(s, k, true)).app == Cycles(s, k, false).app <==> !CyclingLoses(s.app, k)
    decreases k
  {
    if k >= 6 {
      DeferredRepeats(s, k);
      ImmediateRepeats(s, k);
      NothingStaged(s, k - 3);
    } else {
      DeferredAdvances(s, k);
      SmallCycles(s);
    }
  }

  lemma {:induction false} AdvanceRepeats(mode: Mode, k: nat)
    ensures Advance(mode, k + 3) == Advance(mode, k)
  {
    if k > 0 {
      AdvanceRepeats(mode, k - 1);
    } else {
      assert Advance(mode, 3) == NextMode(Advance(mode, 2)) && Advance(mode, 2) == NextMode(Advance(mode, 1));
    }
  }

  lemma {:induction false} DeferredRepeats(s: Lifecycle, k: nat)
    requires s.pending != Some(s.app.agentMode) && k >= 3
    ensures Cycles(s, k, true) == Cycles(s, k - 3, true)
  {
    DeferredAdvances(s, k);
    DeferredAdvances(s, k - 3);
    AdvanceRepeats(Origin(s), k - 3);
  }

  lemma {:induction false} ImmediateRepeats(s: Lifecycle, k: nat)
    requires Coherent(s) && s.pending.None? && k >= 6
    ensures Cycles(s, k, false).app == Cycles(s, k - 3, false).app
  {
    RoundTrips(s, k - 3);
    RoundTrips(s, k - 6);
  }

  /** The first few cycles when the next mode is staged. */
  lemma {:induction false} FewSkip(s: Lifecycle, k: nat)
    requires Coherent(s) && s.pending == Some(NextMode(s.app.agentMode)) && 0 < k <= 6
    ensures WithPendingApplied(Cycles(s, k, true)).app == Cycles(s, k, false).app <==> !SkippingLoses(s.app, k)
  {
    var s1 := SetTo(s, NextMode(Origin(s)));
    FirstCycle(s, k);
    SmallCycles(s1);
    SmallCycles(s1.(app := s.app));
    DeferredAdvances(s, k);
    AdvanceFirst(s.app.agentMode, k);
    if k >= 5 {
      AdvanceRepeats(s.app.agentMode, k - 2);
    }
  }

  lemma {:induction false} NextIsStaged(s: Lifecycle, k: nat)
    requires Coherent(s) && s.pending == Some(NextMode(s.app.agentMode)) && k > 0
    ensures WithPendingApplied(Cycles(s, k, true)).app == Cycles(s, k, false).app <==> !SkippingLoses(s.app, k)
    decreases k
  {
    if k >= 7 {
      DeferredRepeats(s, k);
      FirstCycle(s, k);
      FirstCycle(s, k - 3);
      ImmediateRepeats(SetTo(s, NextMode(Origin(s))), k - 1);
      NextIsStaged(s, k - 3);
    } else {
      FewSkip(s, k);
    }
  }

  lemma {:induction false} AdvanceFirst(mode: Mode, k: nat)
    ensures Advance(NextMode(mode), k) == Advance(mode, k + 1)
  {
    if k > 0 {
      AdvanceFirst(mode, k - 1);
    }
  }

  lemma {:induction false} LastIsStaged(s: Lifecycle, k: nat)
    requires Coherent(s) && s.pending == Some(NextMode(NextMode(s.app.agentMode))) && k > 0
    ensures WithPendingApplied(Cycles(s, k, true)).app == Cycles(s, k, false).app <==> !CyclingLoses(s.app, k - 1)
  {
    var s1 := s.(pending := None);
    assert SetTo(s, NextMode(Origin(s))) == s1;
    FirstCycle(s, k);
    DeferredAdvances(s, k);
    DeferredAdvances(s1, k - 1);
    AdvanceFirst(Origin(s), k - 1);
    NothingStaged(s1, k - 1);
  }

  /**
   Deferring agrees with cycling at once in the whole projected state exactly when the cycles passed
   through have nothing to lose: passing PLAN drops the current plan and resets the return mode.
   */
  lemma {:induction false} DeferralAgreesUnlessLossy(s: Lifecycle, k: nat)
    requires Coherent(s)
    ensures WithPendingApplied(Cycles(s, k, true)).app == Cycles(s, k, false).app
       <==> !CyclingParts(s.app, s.pending, k)
  {
    if s.pending.None? {
      NothingStaged(s, k);
    } else if k == 0 {
      DeferralReachesSameMode(s, k);
    } else if s.pending.value == NextMode(s.app.agentMode) {
      NextIsStaged(s, k);
    } else {
      LastIsStaged(s, k);
    }
  }

  // ----- The classes ----------------------------------------------------------------------------

  class Store {
    var state: AppState

    constructor ()
      ensures state == INITIAL.app
    {
      state := INITIAL.app;
    }

    method SetState(agentMode: Mode, planMode: bool, planReturnMode: Mode, currentPlan: Option<string>)
      modifies this
      ensures state == AppState(agentMode, planMode, planReturnMode, currentPlan)
    {
      state := state.(agentMode := agentMode, planMode := planMode, planReturnMode := planReturnMode,
                      currentPlan := currentPlan);
    }
  }

  /** What a transition reports to its caller and to the listeners. */
  datatype Snapshot = Snapshot(baseMode: Mode, pendingBaseMode: Option<Mode>)

  class AgentModeLifecycleController {
    const store: Store
    var pendingBaseMode: Option<Mode>
    var completedPlanRevision: nat
    var lastCompletedPlan: Option<string>

    function State(): Lifecycle
      reads this, store
    {
      Lifecycle(store.state, pendingBaseMode, completedPlanRevision, lastCompletedPlan)
    }

    function Report(): Snapshot
      reads this, store
    {
      Snapshot(store.state.agentMode, pendingBaseMode)
    }

    constructor (store: Store)
      ensures this.store == store && State() == Lifecycle(store.state, None, 0, None)
    {
      this.store, pendingBaseMode, completedPlanRevision, lastCompletedPlan := store, None, 0, None;
    }

    method Cycle(defer: bool) returns (r: Snapshot)
      modifies this, store
      ensures State() == Cycled(old(State()), defer) && r == Report()
    {
      var current := store.state.agentMode;
      var origin := if pendingBaseMode.Some? then pendingBaseMode.value else current;
      var next := NextMode(origin);
      if defer {
        pendingBaseMode := if next == current then None else Some(next);
        return Report();
      }
      r := SetMode(next);
    }

    method SetMode(mode: Mode) returns (r: Snapshot)
      modifies this, store
      ensures State() == SetTo(old(State()), mode) && r == Report()
    {
      pendingBaseMode := None;
      Apply(mode);
      r := Report();
    }

    method CompletePlan(plan: string, returnMode: Mode) returns (r: Snapshot)
      requires returnMode != Plan
      modifies this, store
      ensures State() == WithPlanCompleted(old(State()), plan, returnMode) && r == Report()
    {
      var savedPlan := Trim(plan);
      var executionMode :=
        if pendingBaseMode.Some? && pendingBaseMode.value != Plan then pendingBaseMode.value else returnMode;
      pendingBaseMode := None;
      completedPlanRevision := completedPlanRevision + 1;
      lastCompletedPlan := Some(savedPlan);
      store.SetState(executionMode, false, executionMode, Some(savedPlan));
      r := Report();
    }

    method ApplyPending() returns (r: Snapshot)
      modifies this, store
      ensures State() == WithPendingApplied(old(State())) && r == Report()
    {
      if pendingBaseMode.None? {
        return Report();
      }
      var pending := pendingBaseMode.value;
      pendingBaseMode := None;
      Apply(pending);
      r := Report();
    }

    method CompletedPlanSince(revision: int) returns (plan: Option<string>)
      ensures plan == CompletedSince(State(), revision)
    {
      plan := if completedPlanRevision > revision then lastCompletedPlan else None;
    }

    method Apply(mode: Mode)
      modifies store
      ensures store.state == AppliedTo(old(store.state), mode)
    {
      var snapshot := store.state;
      if mode == Plan {
        var returnMode := if snapshot.agentMode == Auto then Auto
                          else if snapshot.agentMode == Interactive then Interactive else snapshot.planReturnMode;
        store.SetState(Plan, true, returnMode, None);
        return;
      }
      store.SetState(mode, false, mode, if snapshot.agentMode == Plan then None else snapshot.currentPlan);
    }
  }
}
