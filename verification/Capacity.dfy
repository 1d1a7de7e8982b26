/** The capacity gates over all deployments of one namespace. */
module Capacity {
  import opened Labels
  import opened Operator
  import opened Runs
  import opened Slots

  /** A limit of zero or less means no limit. */
  datatype Limits = Limits(maxRollouts: int, maxDeployments: int)

  datatype Member = Member(cfg: Config, state: State) {
    predicate Rolling() { Slots.Rolling(state) }
    predicate Active() { Slots.Active(state) }
  }

  type Namespace = seq<Member>

  ghost predicate DistinctNames(ns: Namespace) {
    forall i, j :: 0 <= i < j < |ns| ==> ns[i].cfg.name != ns[j].cfg.name
  }

  ghost function RollingSet(ns: Namespace): set<nat> { set i: nat | i < |ns| && ns[i].Rolling() }

  ghost function ActiveSet(ns: Namespace): set<nat> { set i: nat | i < |ns| && ns[i].Active() }

  // ----- the gates' counting loops -----

  ghost function RollingOthers(ns: Namespace, k: nat, n: nat): set<nat>
    requires n <= |ns|
  {
    set j: nat | j < n && j != k && ns[j].Rolling()
  }

  ghost function ActiveOthers(ns: Namespace, k: nat, n: nat): set<nat>
    requires n <= |ns|
  {
    set j: nat | j < n && j != k && ns[j].Active()
  }

  lemma Grown(s: set<nat>, t: set<nat>, n: nat, joins: bool)
    requires n !in s && t == s + if joins then {n} else {}
    ensures |t| == |s| + if joins then 1 else 0
  {
  }

  lemma CountRolling(ns: Namespace, k: nat, n: nat)
    requires n < |ns|
    ensures |RollingOthers(ns, k, n + 1)| == |RollingOthers(ns, k, n)| + if n != k && ns[n].Rolling() then 1 else 0
  {
    assert RollingOthers(ns, k, n + 1) == RollingOthers(ns, k, n) + if n != k && ns[n].Rolling() then {n} else {};
    Grown(RollingOthers(ns, k, n), RollingOthers(ns, k, n + 1), n, n != k && ns[n].Rolling());
  }

  lemma CountActive(ns: Namespace, k: nat, n: nat)
    requires n < |ns|
    ensures |ActiveOthers(ns, k, n + 1)| == |ActiveOthers(ns, k, n)| + if n != k && ns[n].Active() then 1 else 0
  {
    assert ActiveOthers(ns, k, n + 1) == ActiveOthers(ns, k, n) + if n != k && ns[n].Active() then {n} else {};
    Grown(ActiveOthers(ns, k, n), ActiveOthers(ns, k, n + 1), n, n != k && ns[n].Active());
  }

  method CheckRolloutCapacity(limits: Limits, ns: Namespace, k: nat) returns (requeue: bool)
    requires k < |ns| && DistinctNames(ns)
    ensures requeue <==> 0 < limits.maxRollouts <= |RollingSet(ns) - {k}|
  {
    if limits.maxRollouts <= 0 {
      return false;
    }
    var rolling := 0;
    assert RollingOthers(ns, k, 0) == {};
    for i := 0 to |ns|
      invariant rolling == |RollingOthers(ns, k, i)|
    {
      CountRolling(ns, k, i);
      if ns[i].cfg.name == ns[k].cfg.name {
        continue;
      }
      if ns[i].state.spec.suspended {
        continue;
      }
      if IsRollingPhase(ns[i].state.status.phase) {
        rolling := rolling + 1;
      }
    }
    assert RollingOthers(ns, k, |ns|) == RollingSet(ns) - {k};
    return rolling >= limits.maxRollouts;
  }

  method CheckDeploymentCapacity(limits: Limits, ns: Namespace, k: nat) returns (requeue: bool)
    requires k < |ns| && DistinctNames(ns)
    ensures requeue <==> 0 < limits.maxDeployments <= |ActiveSet(ns) - {k}|
  {
    if limits.maxDeployments <= 0 {
      return false;
    }
    var active := 0;
    assert ActiveOthers(ns, k, 0) == {};
    for i := 0 to |ns|
      invariant active == |ActiveOthers(ns, k, i)|
    {
      CountActive(ns, k, i);
      if ns[i].cfg.name == ns[k].cfg.name {
        continue;
      }
      if IsActivePhase(ns[i].state.status.phase) {
        active := active + 1;
      }
    }
    assert ActiveOthers(ns, k, |ns|) == ActiveSet(ns) - {k};
    return active >= limits.maxDeployments;
  }

  ghost predicate Full(limits: Limits, ns: Namespace, k: nat) {
    || 0 < limits.maxRollouts <= |RollingSet(ns) - {k}|
    || 0 < limits.maxDeployments <= |ActiveSet(ns) - {k}|
  }

  /** The gates are skipped for partial reconciles, suspended deployments and ones that await code. */
  method CheckCapacityGates(limits: Limits, ns: Namespace, k: nat) returns (requeue: bool)
    requires k < |ns| && DistinctNames(ns)
    ensures requeue <==> GatesConsulted(ns[k].state) && Full(limits, ns, k)
  {
    if !NeedsFullReconciliation(ns[k].state) || ns[k].state.spec.suspended
       || ns[k].state.status.phase == AwaitingCode {
      return false;
    }
    requeue := CheckDeploymentCapacity(limits, ns, k);
    if requeue {
      return;
    }
    requeue := CheckRolloutCapacity(limits, ns, k);
  }

  // ----- one step of one deployment -----

  /** The step of member k, with the gate's verdict computed from the namespace. */
  ghost function Moved(limits: Limits, ns: Namespace, k: nat, step: Step): State
    requires k < |ns|
  {
    var gated := if step.Reconciles? then Reconciles(step.inputs.(capacityFull := Full(limits, ns, k))) else step;
    Next(ns[k].cfg, ns[k].state, gated)
  }

  ghost function NextNs(limits: Limits, ns: Namespace, k: nat, step: Step): Namespace
    requires k < |ns|
  {
    ns[k := ns[k].(state := Moved(limits, ns, k, step))]
  }

  lemma UpdateMovesOne(ns: Namespace, k: nat, m: Member)
    requires k < |ns|
    ensures RollingSet(ns[k := m]) - {k} == RollingSet(ns) - {k}
    ensures ActiveSet(ns[k := m]) - {k} == ActiveSet(ns) - {k}
  {
    var after := ns[k := m];
    assert forall i :: 0 <= i < |ns| && i != k ==> after[i] == ns[i];
  }

  lemma AtMostOneMore(s: set<nat>, k: nat)
    ensures |s - {k}| <= |s| <= |s - {k}| + 1
    ensures k !in s ==> |s| == |s - {k}|
  {
    if k in s {
      assert s == (s - {k}) + {k};
    } else {
      assert s == s - {k};
    }
  }

  /** After a reconcile that passes the gates both limits hold, whatever the namespace was before. */
  lemma PassedGatesMeetLimits(limits: Limits, ns: Namespace, k: nat, step: Step)
    requires k < |ns| && Gated(ns[k].state, step) && !Full(limits, ns, k)
    ensures 0 < limits.maxRollouts ==> |RollingSet(NextNs(limits, ns, k, step))| <= limits.maxRollouts
    ensures 0 < limits.maxDeployments ==> |ActiveSet(NextNs(limits, ns, k, step))| <= limits.maxDeployments
  {
    var after := NextNs(limits, ns, k, step);
    UpdateMovesOne(ns, k, after[k]);
    AtMostOneMore(RollingSet(after), k);
    AtMostOneMore(ActiveSet(after), k);
  }

  /** A reconcile turned away by the gates changes nothing. */
  lemma RefusedGateChangesNothing(limits: Limits, ns: Namespace, k: nat, step: Step)
    requires k < |ns| && Gated(ns[k].state, step) && Full(limits, ns, k)
    ensures NextNs(limits, ns, k, step) == ns
  {
  }

  lemma SizeAfterMove(s: set<nat>, t: set<nat>, k: nat)
    requires s - {k} == t - {k}
    ensures |t| == |s| + (if k in t then 1 else 0) - (if k in s then 1 else 0)
  {
    assert k in s ==> s == (s - {k}) + {k};
    assert k in t ==> t == (t - {k}) + {k};
    assert k !in s ==> s == s - {k};
    assert k !in t ==> t == t - {k};
  }

  /** The gates look at the others only: what a deployment holds itself never turns it away. */
  lemma OwnSlotNeverBlocks(limits: Limits, ns: Namespace, k: nat, m: Member)
    requires k < |ns|
    ensures Full(limits, ns, k) <==> Full(limits, ns[k := m], k)
    ensures 0 < limits.maxRollouts && |RollingSet(ns)| <= limits.maxRollouts && ns[k].Rolling()
            && limits.maxDeployments <= 0 ==>
              !Full(limits, ns, k)
    ensures 0 < limits.maxDeployments && |ActiveSet(ns)| <= limits.maxDeployments && ns[k].Active()
            && limits.maxRollouts <= 0 ==>
              !Full(limits, ns, k)
  {
    UpdateMovesOne(ns, k, m);
    SizeAfterMove(RollingSet(ns), RollingSet(ns) - {k}, k);
    SizeAfterMove(ActiveSet(ns), ActiveSet(ns) - {k}, k);
  }

  // ----- runs of a namespace -----

  datatype Event = Event(member: nat, step: Step)

  ghost function RunNs(limits: Limits, ns: Namespace, events: seq<Event>): Namespace
    ensures |RunNs(limits, ns, events)| == |ns|
  {
    if events == [] then ns
    else
      var before, e := RunNs(limits, ns, events[..|events| - 1]), events[|events| - 1];
      if e.member < |ns| then NextNs(limits, before, e.member, e.step) else before
  }

  ghost predicate WithinLimits(limits: Limits, ns: Namespace) {
    && (0 < limits.maxRollouts ==> |RollingSet(ns)| <= limits.maxRollouts)
    && (0 < limits.maxDeployments ==> |ActiveSet(ns)| <= limits.maxDeployments)
  }

  // ----- ungated steps -----

  /** A step that is not gated does not depend on the gates' verdict. */
  lemma VerdictUnread(cfg: Config, s: State, i: Inputs, full: bool)
    requires !Gated(s, Reconciles(i))
    ensures var step, other := Reconciles(i), Reconciles(i.(capacityFull := full));
            && TakesRolloutSlot(cfg, s, step) == TakesRolloutSlot(cfg, s, other)
            && TakesDeploymentSlot(cfg, s, step) == TakesDeploymentSlot(cfg, s, other)
  {
    assert ReachesBuild(cfg, s, i) == ReachesBuild(cfg, s, i.(capacityFull := full));
  }

  /**
   * Exactly when an ungated step takes up a rollout slot. It is then a reconcile of a deployment that waits
   * for code or needs no full reconcile, or an edit that lifts a suspension.
   */
  lemma RolloutSlipSources(limits: Limits, ns: Namespace, k: nat, step: Step)
    requires k < |ns| && !Gated(ns[k].state, step) && !ns[k].Rolling()
    ensures NextNs(limits, ns, k, step)[k].Rolling() <==> TakesRolloutSlot(ns[k].cfg, ns[k].state, step)
    ensures NextNs(limits, ns, k, step)[k].Rolling() ==>
            || (step.Reconciles? && ns[k].state.status.phase == AwaitingCode)
            || (step.Reconciles? && !NeedsFullReconciliation(ns[k].state))
            || (step.EditSpec? && ns[k].state.spec.suspended && !step.spec.suspended)
  {
    if step.Reconciles? {
      VerdictUnread(ns[k].cfg, ns[k].state, step.inputs, Full(limits, ns, k));
      RolloutSlotExactly(ns[k].cfg, ns[k].state, Reconciles(step.inputs.(capacityFull := Full(limits, ns, k))));
    } else {
      RolloutSlotExactly(ns[k].cfg, ns[k].state, step);
    }
  }

  /** And a deployment slot: always by a reconcile that is partial, suspended or of a deployment that waits. */
  lemma DeploymentSlipSources(limits: Limits, ns: Namespace, k: nat, step: Step)
    requires k < |ns| && !Gated(ns[k].state, step) && !ns[k].Active()
    ensures NextNs(limits, ns, k, step)[k].Active() <==> TakesDeploymentSlot(ns[k].cfg, ns[k].state, step)
    ensures NextNs(limits, ns, k, step)[k].Active() ==>
            step.Reconciles? &&
            (|| !NeedsFullReconciliation(ns[k].state)
             || ns[k].state.spec.suspended
             || ns[k].state.status.phase == AwaitingCode)
  {
    if step.Reconciles? {
      VerdictUnread(ns[k].cfg, ns[k].state, step.inputs, Full(limits, ns, k));
      DeploymentSlotExactly(ns[k].cfg, ns[k].state, Reconciles(step.inputs.(capacityFull := Full(limits, ns, k))));
    } else {
      DeploymentSlotExactly(ns[k].cfg, ns[k].state, step);
    }
  }

  /** New deployments hold no slot, however many there are. */
  lemma NewDeploymentsHoldNoSlot(limits: Limits, ns: Namespace)
    requires forall k :: 0 <= k < |ns| ==> ns[k].state == Fresh(ns[k].state.spec)
    ensures RollingSet(ns) == {} && ActiveSet(ns) == {} && WithinLimits(limits, ns)
  {
    forall k: nat | k < |ns|
      ensures !ns[k].Rolling() && !ns[k].Active()
    {
      assert ns[k].state.status.phase == Unset;
    }
  }

  /** Takes up a slot without the gates being asked while all slots of that kind are taken. */
  ghost predicate SlipsPast(limits: Limits, ns: Namespace, e: Event) {
    && e.member < |ns|
    && var m := ns[e.member];
       && !Gated(m.state, e.step)
       && (|| (!m.Rolling() && TakesRolloutSlot(m.cfg, m.state, e.step) && 0 < limits.maxRollouts == |RollingSet(ns)|)
           || (!m.Active() && TakesDeploymentSlot(m.cfg, m.state, e.step) && 0 < limits.maxDeployments == |ActiveSet(ns)|))
  }

  /** The number of slots taken after an ungated step. */
  lemma SlotsAfterUngated(limits: Limits, ns: Namespace, k: nat, step: Step)
    requires k < |ns| && !Gated(ns[k].state, step)
    ensures var m, after := ns[k], NextNs(limits, ns, k, step);
            && (if m.Rolling() then |RollingSet(after)| <= |RollingSet(ns)|
                else |RollingSet(after)| == |RollingSet(ns)| + if TakesRolloutSlot(m.cfg, m.state, step) then 1 else 0)
            && (if m.Active() then |ActiveSet(after)| <= |ActiveSet(ns)|
                else |ActiveSet(after)| == |ActiveSet(ns)| + if TakesDeploymentSlot(m.cfg, m.state, step) then 1 else 0)
  {
    var after := NextNs(limits, ns, k, step);
    UpdateMovesOne(ns, k, after[k]);
    SizeAfterMove(RollingSet(ns), RollingSet(after), k);
    SizeAfterMove(ActiveSet(ns), ActiveSet(after), k);
    if !ns[k].Rolling() {
      RolloutSlipSources(limits, ns, k, step);
    }
    if !ns[k].Active() {
      DeploymentSlipSources(limits, ns, k, step);
    }
  }

  /** Within the limits, an event leads out of them exactly when it slips past a full gate. */
  lemma EventKeepsLimitsExactly(limits: Limits, ns: Namespace, e: Event)
    requires e.member < |ns| && WithinLimits(limits, ns)
    ensures WithinLimits(limits, NextNs(limits, ns, e.member, e.step)) <==> !SlipsPast(limits, ns, e)
  {
    var k := e.member;
    if !Gated(ns[k].state, e.step) {
      SlotsAfterUngated(limits, ns, k, e.step);
    } else if Full(limits, ns, k) {
      RefusedGateChangesNothing(limits, ns, k, e.step);
    } else {
      PassedGatesMeetLimits(limits, ns, k, e.step);
    }
  }

  ghost predicate NothingSlipsPast(limits: Limits, ns: Namespace, events: seq<Event>) {
    forall i :: 0 <= i < |events| ==> !SlipsPast(limits, RunNs(limits, ns, events[..i]), events[i])
  }

  ghost predicate AlwaysWithinLimits(limits: Limits, ns: Namespace, events: seq<Event>) {
    forall i :: 0 <= i <= |events| ==> WithinLimits(limits, RunNs(limits, ns, events[..i]))
  }

  lemma RunNsAppend(limits: Limits, ns: Namespace, events: seq<Event>, k: nat)
    requires k < |events|
    ensures RunNs(limits, ns, events[..k + 1]) ==
            var before := RunNs(limits, ns, events[..k]);
            if events[k].member < |ns| then NextNs(limits, before, events[k].member, events[k].step) else before
  {
    assert events[..k + 1][..k] == events[..k] && events[..k + 1][k] == events[k];
  }

  /** One event of a run that starts within the limits. */
  lemma RunStepWithin(limits: Limits, ns: Namespace, events: seq<Event>, k: nat)
    requires k < |events| && WithinLimits(limits, RunNs(limits, ns, events[..k]))
    ensures WithinLimits(limits, RunNs(limits, ns, events[..k + 1])) <==>
            !SlipsPast(limits, RunNs(limits, ns, events[..k]), events[k])
  {
    RunNsAppend(limits, ns, events, k);
    if events[k].member < |ns| {
      EventKeepsLimitsExactly(limits, RunNs(limits, ns, events[..k]), events[k]);
    }
  }

  lemma {:induction false} RunStaysWithin(limits: Limits, ns: Namespace, events: seq<Event>, k: nat)
    requires WithinLimits(limits, ns) && NothingSlipsPast(limits, ns, events) && k <= |events|
    ensures WithinLimits(limits, RunNs(limits, ns, events[..k]))
    decreases k
  {
    if k > 0 {
      RunStaysWithin(limits, ns, events, k - 1);
      RunStepWithin(limits, ns, events, k - 1);
    }
  }

  /** A run stays within both limits throughout exactly when nothing in it slips past a full gate. */
  lemma RunKeepsLimitsExactly(limits: Limits, ns: Namespace, events: seq<Event>)
    requires WithinLimits(limits, ns)
    ensures AlwaysWithinLimits(limits, ns, events) <==> NothingSlipsPast(limits, ns, events)
  {
    if NothingSlipsPast(limits, ns, events) {
      forall k | 0 <= k <= |events|
        ensures WithinLimits(limits, RunNs(limits, ns, events[..k]))
      {
        RunStaysWithin(limits, ns, events, k);
      }
    }
    if AlwaysWithinLimits(limits, ns, events) {
      forall k | 0 <= k < |events|
        ensures !SlipsPast(limits, RunNs(limits, ns, events[..k]), events[k])
      {
        RunStepWithin(limits, ns, events, k);
      }
    }
  }

  // ----- two pushes -----

  /** A deployment that waits for code and has just been given some. */
  predicate CodeArrived(m: Member) {
    && CanCreateJobs(m.cfg) && Buildable(m.state.spec)
    && m.state.status.phase == AwaitingCode && m.state.status.buildStatus == NoBuild && m.state.jobs == map[]
  }

  lemma PushStartsBuild(limits: Limits, ns: Namespace, k: nat) returns (after: Namespace)
    requires k < |ns| && CodeArrived(ns[k]) && ValidConfig(ns[k].cfg)
    ensures after == NextNs(limits, ns, k, Reconciles(QUIET)) && |after| == |ns| && after[k].Rolling()
    ensures forall j :: 0 <= j < |ns| && j != k ==> after[j] == ns[j]
  {
    var m, i := ns[k], QUIET.(capacityFull := Full(limits, ns, k));
    CurrentBuildId(m.cfg, m.state.spec);
    JobNameIsLabel(m.cfg.name, ComputeBuildId(m.cfg, m.state.spec));
    DueBuildCreates(m.cfg, m.state, i);
    after := NextNs(limits, ns, k, Reconciles(QUIET));
  }

  lemma BothRolling(ns: Namespace)
    requires |ns| == 2 && ns[0].Rolling() && ns[1].Rolling()
    ensures !WithinLimits(Limits(1, 0), ns)
  {
    assert RollingSet(ns) == {0, 1};
  }

  /** So the rollout limit itself is not an invariant: two pushes at a limit of one start two builds. */
  lemma PushesPassTheLimit(ns: Namespace) returns (one: Namespace, two: Namespace)
    requires |ns| == 2 && forall k :: 0 <= k < 2 ==> CodeArrived(ns[k]) && ValidConfig(ns[k].cfg)
    ensures WithinLimits(Limits(1, 0), ns)
    ensures one == NextNs(Limits(1, 0), ns, 0, Reconciles(QUIET)) && |one| == 2
    ensures two == NextNs(Limits(1, 0), one, 1, Reconciles(QUIET))
    ensures !WithinLimits(Limits(1, 0), two)
  {
    assert RollingSet(ns) == {};
    one := PushStartsBuild(Limits(1, 0), ns, 0);
    two := PushStartsBuild(Limits(1, 0), one, 1);
    BothRolling(two);
  }

  /** A new deployment without code, and nothing else that could hold a reconcile up. */
  predicate AwaitsFirstPush(m: Member) {
    && CanCreateJobs(m.cfg) && m.state == Fresh(m.state.spec)
    && m.state.spec.repoUrl == "" && !m.state.spec.suspended
    && m.state.spec.secretName == "" && !NeedsMigration(m.state.spec)
  }

  /** Its first reconcile finds nothing to build; then code is pushed. */
  lemma FirstPush(limits: Limits, ns: Namespace, k: nat, pushed: Spec) returns (after: Namespace)
    requires k < |ns| && AwaitsFirstPush(ns[k]) && Buildable(pushed) && !Full(limits, ns, k)
    ensures after == NextNs(limits, NextNs(limits, ns, k, Reconciles(QUIET)), k, EditSpec(pushed))
    ensures |after| == |ns| && after[k].cfg == ns[k].cfg && CodeArrived(after[k]) && !after[k].Rolling()
    ensures forall j :: 0 <= j < |ns| && j != k ==> after[j] == ns[j]
  {
    after := NextNs(limits, NextNs(limits, ns, k, Reconciles(QUIET)), k, EditSpec(pushed));
  }

  lemma NoneRolling(ns: Namespace, k: nat)
    requires |ns| == 2 && k < 2 && !ns[0].Rolling() && !ns[1].Rolling()
    ensures !Full(Limits(1, 0), ns, k) && WithinLimits(Limits(1, 0), ns)
  {
    assert RollingSet(ns) == {} && RollingSet(ns) - {k} == {};
  }

  lemma RunNsSnoc(limits: Limits, ns: Namespace, events: seq<Event>, e: Event)
    requires e.member < |ns|
    ensures RunNs(limits, ns, events + [e]) == NextNs(limits, RunNs(limits, ns, events), e.member, e.step)
  {
    assert (events + [e])[..|events|] == events;
  }

  /** Two new deployments wait for code, and both receive it. */
  lemma BothPushed(ns: Namespace, pushed: Spec) returns (events: seq<Event>, after: Namespace)
    requires |ns| == 2 && AwaitsFirstPush(ns[0]) && AwaitsFirstPush(ns[1]) && Buildable(pushed)
    ensures after == RunNs(Limits(1, 0), ns, events)
    ensures after[0].cfg == ns[0].cfg && after[1].cfg == ns[1].cfg && CodeArrived(after[0]) && CodeArrived(after[1])
  {
    var limits := Limits(1, 0);
    var look, push := Reconciles(QUIET), EditSpec(pushed);
    NoneRolling(ns, 0);
    var one := FirstPush(limits, ns, 0, pushed);
    NoneRolling(one, 1);
    after := FirstPush(limits, one, 1, pushed);
    RunNsSnoc(limits, ns, [], Event(0, look));
    RunNsSnoc(limits, ns, [] + [Event(0, look)], Event(0, push));
    events := [] + [Event(0, look)] + [Event(0, push)];
    RunNsSnoc(limits, ns, events, Event(1, look));
    RunNsSnoc(limits, ns, events + [Event(1, look)], Event(1, push));
    events := events + [Event(1, look)] + [Event(1, push)];
  }

  /** The whole run: at a limit of one, both build. */
  lemma TwoPushesFromFresh(ns: Namespace, pushed: Spec) returns (events: seq<Event>)
    requires |ns| == 2 && forall k :: 0 <= k < 2 ==> AwaitsFirstPush(ns[k]) && ValidConfig(ns[k].cfg)
    requires Buildable(pushed)
    ensures WithinLimits(Limits(1, 0), ns) && !WithinLimits(Limits(1, 0), RunNs(Limits(1, 0), ns, events))
  {
    NoneRolling(ns, 0);
    var before, waiting := BothPushed(ns, pushed);
    var one, two := PushesPassTheLimit(waiting);
    RunNsSnoc(Limits(1, 0), ns, before, Event(0, Reconciles(QUIET)));
    RunNsSnoc(Limits(1, 0), ns, before + [Event(0, Reconciles(QUIET))], Event(1, Reconciles(QUIET)));
    events := before + [Event(0, Reconciles(QUIET))] + [Event(1, Reconciles(QUIET))];
  }
}
