/** What the pool promises over every run of `PoolWorlds`. */
module PoolTheorems {
  import opened Basics
  import opened PoolSlots
  import opened PoolWorlds

  // ------------------------------------------------------ no lost wake-up

  /** While the pool is open, a thread sleeps unsignalled only if every free unit of
      capacity is matched by a signalled thread that has yet to look again. */
  ghost predicate NoLostWakeup(w: World, cfg: PoolConfig) {
    !w.slot.closed && w.parked != {} ==> cfg.maxConns - w.slot.activeCount <= |w.woken|
  }

  /** A signalled waiter leaves without looking for a connection and without passing
      the signal on: its budget ran out first, or its wait reported a failure. */
  predicate LosesSignal(w: World, step: Step) {
    || (step.Resume? && Expired(w, step.t))
    || (step.WaitFails? && step.t in w.woken)
  }

  /** Which steps keep the promise: all of them, except a lost signal that had no slack. */
  lemma WakeupKeptExactlyUnlessSignalLost(w: World, cfg: PoolConfig, step: Step)
    requires Counts(w, cfg) && Phases(w) && Enabled(w, cfg, step) && NoLostWakeup(w, cfg)
    ensures NoLostWakeup(Apply(w, cfg, step), cfg) <==>
            !(&& !w.slot.closed && LosesSignal(w, step)
              && w.parked != {} && cfg.maxConns - w.slot.activeCount == |w.woken|)
  {
    match step {
      case Resume(t) => ResumeWakeups(w, cfg, t);
      case WaitFails(t, failure) => WaitFailsWakeups(w, cfg, t, failure);
      case ConnectFails(_) => SignallingWakeups(w, cfg, step);
      case ReleaseLease(_, _) => SignallingWakeups(w, cfg, step);
      case RecycleIdles(_, _) => SignallingWakeups(w, cfg, step);
      case _ => OtherWakeups(w, cfg, step);
    }
  }

  lemma OtherWakeups(w: World, cfg: PoolConfig, step: Step)
    requires Counts(w, cfg) && Phases(w) && Enabled(w, cfg, step) && NoLostWakeup(w, cfg)
    requires !step.Resume? && !step.WaitFails?
    requires !step.ConnectFails? && !step.ReleaseLease? && !step.RecycleIdles?
    ensures NoLostWakeup(Apply(w, cfg, step), cfg)
  {
    match step {
      case Acquire(t, until) => AcquireWakeups(w, cfg, t, until);
      case KeepaliveAcquire => KeepaliveWakeups(w, cfg);
      case SpuriousWake(t) => WakeCounts(w, {t});
      case _ =>
    }
  }

  lemma AcquireWakeups(w: World, cfg: PoolConfig, t: Tid, until: Option<int>)
    requires Counts(w, cfg) && NoLostWakeup(w, cfg) && Enabled(w, cfg, Acquire(t, until))
    ensures NoLostWakeup(Apply(w, cfg, Acquire(t, until)), cfg)
  {}

  lemma KeepaliveWakeups(w: World, cfg: PoolConfig)
    requires Counts(w, cfg) && NoLostWakeup(w, cfg)
    ensures NoLostWakeup(Apply(w, cfg, KeepaliveAcquire), cfg)
  {}

  lemma WaitFailsWakeups(w: World, cfg: PoolConfig, t: Tid, failure: WaitError)
    requires Counts(w, cfg) && Phases(w) && NoLostWakeup(w, cfg) && Enabled(w, cfg, WaitFails(t, failure))
    ensures NoLostWakeup(Apply(w, cfg, WaitFails(t, failure)), cfg) <==>
            !(&& !w.slot.closed && t in w.woken
              && w.parked != {} && cfg.maxConns - w.slot.activeCount == |w.woken|)
  {
    if t in w.woken {
      assert |w.woken - {t}| == |w.woken| - 1;
      assert w.parked - {t} == w.parked;
    } else {
      assert w.woken - {t} == w.woken;
    }
  }

  lemma SignallingWakeups(w: World, cfg: PoolConfig, step: Step)
    requires Counts(w, cfg) && Phases(w) && Enabled(w, cfg, step) && NoLostWakeup(w, cfg)
    requires step.ConnectFails? || step.ReleaseLease? || step.RecycleIdles?
    ensures NoLostWakeup(Apply(w, cfg, step), cfg)
  {
    WakeCounts(w, step.wakes);
  }

  lemma ResumeWakeups(w: World, cfg: PoolConfig, t: Tid)
    requires Counts(w, cfg) && NoLostWakeup(w, cfg) && t in w.woken
    ensures NoLostWakeup(Apply(w, cfg, Resume(t)), cfg) <==>
            !(&& !w.slot.closed && Expired(w, t)
              && w.parked != {} && cfg.maxConns - w.slot.activeCount == |w.woken|)
  {
    assert |w.woken - {t}| == |w.woken| - 1;
    assert w.parked - {t} == w.parked;
  }

  lemma WakeCounts(w: World, wakes: set<Tid>)
    requires wakes <= w.parked && w.parked !! w.woken
    ensures |w.parked - wakes| == |w.parked| - |wakes|
    ensures |w.woken + wakes| == |w.woken| + |wakes|
  {}

  /** No wake-up is lost on any run in which no signal is. */
  lemma {:induction false} NoLostWakeupInRuns(cfg: PoolConfig, run: seq<World>, steps: seq<Step>, k: nat)
    requires IsRun(cfg, run, steps) && k < |run|
    requires forall i :: 0 <= i < k ==> !LosesSignal(run[i], steps[i])
    ensures NoLostWakeup(run[k], cfg)
  {
    hide IsRun, Enabled, Apply, Counts, Phases;
    var times := RunStart(cfg, run, steps);
    if k > 0 {
      RunStep(cfg, run, steps, k - 1);
      NoLostWakeupInRuns(cfg, run, steps, k - 1);
      RunKeepsInv(cfg, run, steps, k - 1);
      WakeupKeptExactlyUnlessSignalLost(run[k - 1], cfg, steps[k - 1]);
    }
  }

  /** Waits without a deadline never lose a signal to the clock. */
  lemma {:induction false} ForeverWaitsNeverExpire(cfg: PoolConfig, run: seq<World>, steps: seq<Step>, k: nat)
    requires IsRun(cfg, run, steps) && k < |run|
    requires forall i :: 0 <= i < k && steps[i].Acquire? ==> steps[i].until.None?
    ensures forall t :: !Expired(run[k], t)
    ensures forall t :: t in run[k].deadline ==> run[k].deadline[t].None?
  {
    hide IsRun, Enabled, Apply, Inv;
    var times := RunStart(cfg, run, steps);
    if k > 0 {
      RunStep(cfg, run, steps, k - 1);
      ForeverWaitsNeverExpire(cfg, run, steps, k - 1);
      DeadlinesStep(run[k - 1], cfg, steps[k - 1]);
    }
  }

  ghost predicate NoDeadlines(w: World) {
    forall t :: t in w.deadline ==> w.deadline[t].None?
  }

  lemma ActDeadlines(w: World, t: Tid, until: Option<int>, isKeepalive: bool, decided: (Decision, Slot))
    requires NoDeadlines(w) && until.None?
    ensures NoDeadlines(Act(w, t, until, isKeepalive, decided))
  {}

  lemma LeavingDeadlines(w: World, t: Tid, wakes: set<Tid>)
    ensures LeaveWait(w, t).deadline == w.deadline && Wake(w, wakes).deadline == w.deadline
  {}

  lemma DeadlinesStep(w: World, cfg: PoolConfig, step: Step)
    requires NoDeadlines(w) && Enabled(w, cfg, step) && (step.Acquire? ==> step.until.None?)
    ensures NoDeadlines(Apply(w, cfg, step))
  {
    hide Act, Decide, LeaveWait, Conns, Rollback, Recycle, Reap, Drain;
    match step {
      case Acquire(t, until) => ActDeadlines(w, t, until, false, Decide(w.slot, cfg.maxConns, false, false));
      case Resume(t) =>
        LeavingDeadlines(w, t, {});
        ActDeadlines(LeaveWait(w, t), t, if t in w.deadline then w.deadline[t] else None, false,
                     Decide(LeaveWait(w, t).slot, cfg.maxConns, false, Expired(w, t)));
      case WaitFails(t, _) => LeavingDeadlines(w, t, {});
      case KeepaliveAcquire => ActDeadlines(w, 0, None, true, Decide(w.slot, cfg.maxConns, true, false));
      case _ =>
    }
  }

  /** So when nobody is on the way to re-check, a sleeper means the pool is exhausted. */
  lemma SleepersMeanExhausted(w: World, cfg: PoolConfig)
    requires Inv(w, cfg) && NoLostWakeup(w, cfg) && !w.slot.closed
    requires w.parked != {} && w.woken == {}
    ensures w.slot.available == [] && w.slot.totalCount == w.slot.activeCount == cfg.maxConns
  {}

  /** A signalled waiter that looks in time takes a free unit of capacity. */
  lemma WokenWaiterTakesCapacity(w: World, cfg: PoolConfig, t: Tid)
    requires Inv(w, cfg) && !w.slot.closed && t in w.woken && !Expired(w, t)
    requires w.slot.activeCount < cfg.maxConns
    ensures var w' := Apply(w, cfg, Resume(t));
            |w'.leases| + w'.connecting == |w.leases| + w.connecting + 1 && t !in w'.parked + w'.woken
  {}

  const ONE_CONN := PoolConfig(0, 1, 60000)

  const LOST_STEPS := [
    Acquire(1, None), ConnectSucceeds, OpenCheck(0), Acquire(2, Some(10)), Acquire(3, None),
    ReleaseLease(0, {2}), Tick(10), Resume(2)]

  function LostWorld(k: nat): World {
    var start := World(EMPTY_SLOT, 0, {}, {}, map[], false, false, 0, [], [], [], [], 0, {}, map[]);
    var reserved := start.(slot := Slot([], false, 1, 1, 0, 0), nextConn := 1, ready := {0});
    var leased := reserved.(leases := [Lease(0, 0, false)]);
    var both := map[2 := Some(10), 3 := None];
    var idle := leased.(slot := Slot([Entry(0, 0, 1)], false, 0, 1, 2, 1), leases := [], parked := {3},
                        woken := {2}, deadline := both, userReleaseMs := map[0 := 0]);
    match k
    case 0 => start
    case 1 => start.(slot := Slot([], false, 1, 1, 0, 0), connecting := 1)
    case 2 => reserved.(connected := [0])
    case 3 => leased
    case 4 => leased.(slot := Slot([], false, 1, 1, 1, 0), parked := {2}, deadline := map[2 := Some(10)])
    case 5 => leased.(slot := Slot([], false, 1, 1, 2, 0), parked := {2, 3}, deadline := both)
    case 6 => idle
    case 7 => idle.(nowMs := 10)
    case _ => idle.(nowMs := 10, slot := Slot([Entry(0, 0, 1)], false, 0, 1, 1, 1), woken := {})
  }

  ghost predicate LostStepOk(k: nat)
    requires k < 8
  {
    Enabled(LostWorld(k), ONE_CONN, LOST_STEPS[k])
    && LostWorld(k + 1) == Apply(LostWorld(k), ONE_CONN, LOST_STEPS[k])
  }

  lemma LostStepFirst()
    ensures LostStepOk(0)
  {}

  lemma LostStepSecond()
    ensures LostStepOk(1)
  {}

  lemma LostStepThird()
    ensures LostStepOk(2)
  {}

  lemma LostStepsPark()
    ensures LostStepOk(3) && LostStepOk(4)
  {}

  lemma LostStepRelease()
    ensures LostStepOk(5)
  {
    assert |{2, 3}| == 2;
    assert {2, 3} - {2} == {3};
  }

  lemma LostStepsExpire()
    ensures LostStepOk(6) && LostStepOk(7)
  {}

  /** The premise is needed: thread 2's budget runs out after it was signalled, and
      thread 3 then sleeps although a connection is idle and nobody will wake it. */
  lemma LostWakeupHappens() returns (run: seq<World>)
    ensures IsRun(ONE_CONN, run, LOST_STEPS)
    ensures var w := run[8];
            && !w.slot.closed && w.parked == {3} && w.woken == {} && w.leases == [] && w.connecting == 0
            && |w.slot.available| == 1
            && !NoLostWakeup(w, ONE_CONN)
  {
    run := seq(9, (i: nat) => LostWorld(i));
    hide Enabled, Apply;
    LostStepFirst();
    LostStepSecond();
    LostStepThird();
    LostStepsPark();
    LostStepRelease();
    LostStepsExpire();
    assert Initial(run[0], ONE_CONN, []);
    assert forall i :: 0 <= i < 8 ==> LostStepOk(i);
  }

  // ------------------------------------------------------ close wins

  /** What is left to wind down, weighted by how many steps it still needs at most. */
  function Remaining(w: World): nat {
    4 * w.connecting + 3 * |w.connected| + 2 * |w.leases| + 2 * |w.slot.available| + |w.doomed|
  }

  /** The steps of whoever still owns a reservation, a lease or a connection to close. */
  predicate OwnerStep(step: Step) {
    step.ConnectFails? || step.ConnectSucceeds? || step.OpenCheck? || step.ReleaseLease? || step.CloseConn?
  }

  ghost predicate OnlyWindsDown(w: World, w': World) {
    && w'.slot.closed
    && (forall l :: l in w'.leases ==> l in w.leases)
    && |w'.leases| <= |w.leases|
    && (forall e :: e in w'.slot.available ==> e in w.slot.available)
    && w'.slot.activeCount <= w.slot.activeCount
    && w'.connecting <= w.connecting
    && (w.drained ==> w'.drained && w'.slot.available == [])
  }

  lemma ClosedStepWindsDown(w: World, cfg: PoolConfig, step: Step)
    requires Inv(w, cfg) && cfg.Valid() && Enabled(w, cfg, step) && w.slot.closed
    ensures OnlyWindsDown(w, Apply(w, cfg, step))
  {
    if step.RecycleIdles? {
      forall e
        ensures e in Kept(w.slot.available, step.tokens) ==> e in w.slot.available
      {
        KeptTakenMembers(w.slot.available, step.tokens, e);
      }
    }
  }

  lemma ClosedStepShrinks(w: World, cfg: PoolConfig, step: Step)
    requires Inv(w, cfg) && cfg.Valid() && Enabled(w, cfg, step) && w.slot.closed
    ensures Remaining(Apply(w, cfg, step)) + (if OwnerStep(step) then 1 else 0) <= Remaining(w)
  {
    if step.RecycleIdles? {
      KeptTakenSplit(w.slot.available, step.tokens);
    }
  }

  /** Once `closed` is set no step hands out a lease, makes a connection idle or raises
      `activeCount`; each owner's step brings the end strictly nearer. */
  lemma CloseWinsStep(w: World, cfg: PoolConfig, step: Step)
    requires Inv(w, cfg) && cfg.Valid() && Enabled(w, cfg, step) && w.slot.closed
    ensures OnlyWindsDown(w, Apply(w, cfg, step))
    ensures Remaining(Apply(w, cfg, step)) + (if OwnerStep(step) then 1 else 0) <= Remaining(w)
  {
    hide Apply, Enabled, Inv, OnlyWindsDown, Remaining;
    ClosedStepWindsDown(w, cfg, step);
    ClosedStepShrinks(w, cfg, step);
  }

  /** How many of the steps `i .. j - 1` are owner steps. */
  function OwnerSteps(steps: seq<Step>, i: nat, j: nat): nat
    requires i <= j <= |steps|
    decreases j
  {
    if i == j then 0 else OwnerSteps(steps, i, j - 1) + if OwnerStep(steps[j - 1]) then 1 else 0
  }

  /** Over any stretch of a run after close began: winding down only, and at most
      `Remaining` owner steps. */
  lemma {:induction false} CloseWinsInRuns(cfg: PoolConfig, run: seq<World>, steps: seq<Step>, i: nat, j: nat)
    requires IsRun(cfg, run, steps) && i <= j < |run| && run[i].slot.closed
    ensures OnlyWindsDown(run[i], run[j])
    ensures Remaining(run[j]) + OwnerSteps(steps, i, j) <= Remaining(run[i])
  {
    hide IsRun, Inv, Remaining, OnlyWindsDown;
    var times := RunStart(cfg, run, steps);
    if j == i {
      RunKeepsInv(cfg, run, steps, i);
      WindDownAtOnce(run[i], cfg);
    } else {
      CloseWinsInRuns(cfg, run, steps, i, j - 1);
      StillClosed(run[i], run[j - 1]);
      RunKeepsInv(cfg, run, steps, j - 1);
      CloseWinsRunStep(cfg, run, steps, j - 1);
      WindDownTransitive(run[i], run[j - 1], run[j]);
    }
  }

  lemma WindDownAtOnce(w: World, cfg: PoolConfig)
    requires Inv(w, cfg) && w.slot.closed
    ensures OnlyWindsDown(w, w)
  {}

  lemma StillClosed(w: World, w': World)
    requires OnlyWindsDown(w, w')
    ensures w'.slot.closed
  {}

  lemma CloseWinsRunStep(cfg: PoolConfig, run: seq<World>, steps: seq<Step>, j: nat)
    requires IsRun(cfg, run, steps) && j < |steps| && Inv(run[j], cfg) && run[j].slot.closed
    ensures OnlyWindsDown(run[j], run[j + 1])
    ensures Remaining(run[j + 1]) + (if OwnerStep(steps[j]) then 1 else 0) <= Remaining(run[j])
  {
    hide IsRun, Enabled, Apply, Inv, OnlyWindsDown, Remaining;
    var times := RunStart(cfg, run, steps);
    RunStep(cfg, run, steps, j);
    CloseWinsStep(run[j], cfg, steps[j]);
  }

  lemma WindDownTransitive(a: World, b: World, c: World)
    requires OnlyWindsDown(a, b) && OnlyWindsDown(b, c)
    ensures OnlyWindsDown(a, c)
  {}

  /** While something remains after the drain, its owner can act. */
  lemma WindDownNeverSticks(w: World, cfg: PoolConfig) returns (step: Step)
    requires Inv(w, cfg) && w.drained && Remaining(w) > 0
    ensures Enabled(w, cfg, step) && OwnerStep(step)
  {
    if |w.doomed| > 0 {
      step := CloseConn(0);
    } else if |w.leases| > 0 {
      step := ReleaseLease(0, {});
    } else if |w.connected| > 0 {
      step := OpenCheck(0);
    } else {
      step := ConnectSucceeds;
    }
  }

  /** At the end both counters are 0 and every connection ever opened was closed once. */
  lemma ClosedDownCompletely(w: World, cfg: PoolConfig)
    requires Inv(w, cfg) && w.drained && Remaining(w) == 0
    ensures w.slot.activeCount == 0 && w.slot.totalCount == 0
    ensures forall c: Conn :: multiset(w.closeLog)[c] == if c < w.nextConn then 1 else 0
  {
    assert Conns(w.slot.available) == [] && LeaseConns(w.leases) == [];
    forall c: Conn
      ensures multiset(w.closeLog)[c] == if c < w.nextConn then 1 else 0
    {
      assert Owners(w, c) == multiset(w.closeLog)[c];
    }
  }

  // ------------------------------------------------------ recycling

  /** A step only keeps idle entries or adds one with a token never used before. */
  lemma StepTokens(w: World, cfg: PoolConfig, step: Step, e: Entry)
    requires Inv(w, cfg) && Enabled(w, cfg, step)
    ensures w.slot.nextWatchToken <= Apply(w, cfg, step).slot.nextWatchToken
    ensures e in Apply(w, cfg, step).slot.available ==>
              e in w.slot.available || e.watchToken > w.slot.nextWatchToken
  {
    hide Act, Decide, LeaveWait, Kept, Taken, Conns, Rollback;
    match step {
      case Acquire(t, until) => ActTokens(w, cfg, t, until, false, until.Some? && until.value <= w.nowMs, e);
      case Resume(t) =>
        LeaveWaitTokens(w, t);
        ActTokens(LeaveWait(w, t), cfg, t, if t in w.deadline then w.deadline[t] else None, false, Expired(w, t), e);
      case WaitFails(t, _) => LeaveWaitTokens(w, t);
      case KeepaliveAcquire => ActTokens(w, cfg, 0, None, true, false, e);
      case RecycleIdles(tokens, _) => KeptTakenMembers(w.slot.available, tokens, e);
      case ConnectFails(_) => RollbackTokens(w.slot);
      case OpenCheck(_) => RollbackTokens(w.slot);
      case _ =>
    }
  }

  lemma ActTokens(
    w: World, cfg: PoolConfig, t: Tid, until: Option<int>, isKeepalive: bool, expired: bool, e: Entry)
    ensures var s := Act(w, t, until, isKeepalive, Decide(w.slot, cfg.maxConns, isKeepalive, expired)).slot;
            s.nextWatchToken == w.slot.nextWatchToken && (e in s.available ==> e in w.slot.available)
  {}

  lemma LeaveWaitTokens(w: World, t: Tid)
    ensures var s := LeaveWait(w, t).slot;
            s.nextWatchToken == w.slot.nextWatchToken && s.available == w.slot.available
  {}

  lemma RollbackTokens(s: Slot)
    ensures Rollback(s).nextWatchToken == s.nextWatchToken && Rollback(s).available == s.available
  {}

  lemma OldTokenOneStepBack(
    cfg: PoolConfig, run: seq<World>, steps: seq<Step>, i: nat, j: nat, e: Entry)
    requires IsRun(cfg, run, steps) && i < j < |run|
    requires e in run[j].slot.available && e.watchToken <= run[i].slot.nextWatchToken
    ensures e in run[j - 1].slot.available
  {
    hide IsRun, Enabled, Apply, Inv;
    RunStep(cfg, run, steps, j - 1);
    RunKeepsInv(cfg, run, steps, j - 1);
    TokensNeverFall(cfg, run, steps, i, j - 1);
    StepTokens(run[j - 1], cfg, steps[j - 1], e);
  }

  /** An idle entry whose token existed at time `i` has been idle, unchanged, ever since:
      leaving `available` gives up the token for good. */
  lemma {:induction false} OldTokenMeansIdleSince(
    cfg: PoolConfig, run: seq<World>, steps: seq<Step>, i: nat, m: nat, j: nat, e: Entry)
    requires IsRun(cfg, run, steps) && i <= m <= j < |run|
    requires e in run[j].slot.available && e.watchToken <= run[i].slot.nextWatchToken
    ensures e in run[m].slot.available
    decreases j
  {
    hide IsRun;
    if m < j {
      OldTokenOneStepBack(cfg, run, steps, i, j, e);
      OldTokenMeansIdleSince(cfg, run, steps, i, m, j - 1, e);
    }
  }

  lemma {:induction false} TokensNeverFall(cfg: PoolConfig, run: seq<World>, steps: seq<Step>, i: nat, j: nat)
    requires IsRun(cfg, run, steps) && i <= j < |run|
    ensures run[i].slot.nextWatchToken <= run[j].slot.nextWatchToken
    decreases j
  {
    hide IsRun, Enabled, Apply, Inv;
    if i < j {
      RunStep(cfg, run, steps, j - 1);
      TokensNeverFall(cfg, run, steps, i, j - 1);
      RunKeepsInv(cfg, run, steps, j - 1);
      StepTokens(run[j - 1], cfg, steps[j - 1], Entry(0, 0, 0));
    }
  }

  ghost predicate ReportedFrom(w: World, tokens: seq<nat>) {
    forall t :: t in tokens ==> exists e :: e in w.slot.available && e.watchToken == t
  }

  /** `e` has been idle at every moment from `i` to `j`. */
  ghost predicate IdleThroughout(run: seq<World>, i: nat, j: nat, e: Entry)
    requires i <= j < |run|
  {
    forall m :: i <= m <= j ==> e in run[m].slot.available
  }

  /** Recycling at `j` with readiness reported for the snapshot of time `i` takes exactly
      the entries that stayed idle from `i` to `j` and were reported, and no lease loses
      its connection; every other idle entry stays, in order. */
  lemma RecyclingIsExact(cfg: PoolConfig, run: seq<World>, steps: seq<Step>, i: nat, j: nat, tokens: seq<nat>, e: Entry)
    requires IsRun(cfg, run, steps) && i <= j < |run| && ReportedFrom(run[i], tokens)
    ensures e in Taken(run[j].slot.available, tokens) <==> e.watchToken in tokens && IdleThroughout(run, i, j, e)
    ensures e in Taken(run[j].slot.available, tokens) ==> forall l :: l in run[j].leases ==> l.conn != e.conn
    ensures e in Kept(run[j].slot.available, tokens) <==>
              e in run[j].slot.available && !(e.watchToken in tokens && IdleThroughout(run, i, j, e))
    ensures TokensIncrease(Kept(run[j].slot.available, tokens))
  {
    RunKeepsInv(cfg, run, steps, i);
    RunKeepsInv(cfg, run, steps, j);
    KeptTakenMembers(run[j].slot.available, tokens, e);
    KeptKeepsOrder(run[j].slot.available, tokens);
    if e in run[j].slot.available && e.watchToken in tokens {
      forall m | i <= m <= j
        ensures e in run[m].slot.available
      {
        OldTokenMeansIdleSince(cfg, run, steps, i, m, j, e);
      }
      forall l | l in run[j].leases
        ensures l.conn != e.conn
      {
        var k :| 0 <= k < |run[j].leases| && run[j].leases[k] == l;
        LeasedIsNotElsewhere(run[j], k);
      }
    }
  }

  // ------------------------------------------------------ leases and ages

  /** An acquirer gets the entry made idle last; the others stay as they are. */
  lemma AcquireTakesTheNewestIdle(w: World, cfg: PoolConfig, isKeepalive: bool, expired: bool)
    requires Inv(w, cfg) && Decide(w.slot, cfg.maxConns, isKeepalive, expired).0.GotConn?
    ensures var (d, s) := Decide(w.slot, cfg.maxConns, isKeepalive, expired);
            exists e :: && w.slot.available == s.available + [e]
                        && d == GotConn(e.conn, e.lastUserReleaseMs)
                        && forall f :: f in s.available ==> f.watchToken < e.watchToken
  {
    var (d, s) := Decide(w.slot, cfg.maxConns, isKeepalive, expired);
    var e := w.slot.available[|w.slot.available| - 1];
    assert w.slot.available == s.available + [e];
    assert forall f :: f in s.available ==> f.watchToken < e.watchToken;
  }

  lemma ActHandsOutReady(
    w: World, cfg: PoolConfig, t: Tid, until: Option<int>, isKeepalive: bool, expired: bool, l: Lease)
    requires IdleIsReady(w)
    requires l in Act(w, t, until, isKeepalive, Decide(w.slot, cfg.maxConns, isKeepalive, expired)).leases
    requires l !in w.leases
    ensures l.conn in w.ready
  {
    var es := w.slot.available;
    assert es != [] ==> es[|es| - 1] in es;
  }

  lemma OpenHandsOutReady(w: World, cfg: PoolConfig, i: nat, l: Lease)
    requires IdleIsReady(w) && i < |w.connected|
    requires l in Apply(w, cfg, OpenCheck(i)).leases && l !in w.leases
    ensures l.conn in w.ready
  {
    assert w.connected[i] in w.connected;
  }

  /** The steps that may make a lease. */
  predicate MayHandOut(step: Step) {
    step.Acquire? || step.Resume? || step.KeepaliveAcquire? || step.OpenCheck?
  }

  lemma OthersHandOutNothing(w: World, cfg: PoolConfig, step: Step, l: Lease)
    requires Enabled(w, cfg, step) && !MayHandOut(step)
    ensures l in Apply(w, cfg, step).leases ==> l in w.leases
  {}

  /** Whatever a step hands out is in the ready state. */
  lemma HandedOutIsReady(w: World, cfg: PoolConfig, step: Step, l: Lease)
    requires Inv(w, cfg) && Enabled(w, cfg, step)
    requires l in Apply(w, cfg, step).leases && l !in w.leases
    ensures l.conn in w.ready
  {
    hide Act, Decide, Counts, OneOwner, Tokens, IdleAges, IdleIsReady, Phases;
    match step {
      case Acquire(t, until) => ActHandsOutReady(w, cfg, t, until, false, until.Some? && until.value <= w.nowMs, l);
      case Resume(t) =>
        LeaveWaitKeepsIdle(w, t);
        ActHandsOutReady(LeaveWait(w, t), cfg, t, if t in w.deadline then w.deadline[t] else None, false,
                         Expired(w, t), l);
      case KeepaliveAcquire => ActHandsOutReady(w, cfg, 0, None, true, false, l);
      case OpenCheck(i) => OpenHandsOutReady(w, cfg, i, l);
      case _ => OthersHandOutNothing(w, cfg, step, l);
    }
  }

  lemma LeaveWaitKeepsIdle(w: World, t: Tid)
    ensures IdleIsReady(LeaveWait(w, t)) <==> IdleIsReady(w)
    ensures LeaveWait(w, t).leases == w.leases && LeaveWait(w, t).ready == w.ready
  {}

  /** The moment a step's user release of `c` happens, if it is one. */
  function UserReleaseBy(w: World, step: Step, c: Conn): Option<int> {
    match step
    case ReleaseLease(i, _) =>
      if i < |w.leases| && w.leases[i].conn == c && !w.leases[i].isKeepalive then Some(w.nowMs) else None
    case _ => None
  }

  /** The moment connection `c` was last returned by a user in the first `k` steps of a
      run, or None if no user returned it. */
  function LastUserRelease(run: seq<World>, steps: seq<Step>, k: nat, c: Conn): Option<int>
    requires k <= |steps| < |run|
  {
    if k == 0 then None
    else
      match UserReleaseBy(run[k - 1], steps[k - 1], c)
      case Some(now) => Some(now)
      case None => LastUserRelease(run, steps, k - 1, c)
  }

  /** From `before` to `after` the moment recorded for `c` became `at`, or stayed as it was. */
  ghost predicate Recorded(before: map<Conn, int>, at: Option<int>, after: map<Conn, int>, c: Conn) {
    match at
    case Some(now) => c in after && after[c] == now
    case None => (c in after <==> c in before) && (c in before ==> after[c] == before[c])
  }

  predicate AcquirerStep(step: Step) {
    step.Acquire? || step.Resume? || step.WaitFails? || step.SpuriousWake? || step.KeepaliveAcquire?
  }

  lemma AcquirersRecordNothing(w: World, cfg: PoolConfig, step: Step)
    requires Enabled(w, cfg, step) && AcquirerStep(step)
    ensures Apply(w, cfg, step).userReleaseMs == w.userReleaseMs
  {
    hide Enabled, Decide, Reap, ReapCount, Recycle, Taken, Conns, Rollback, Drain, Release;
  }

  predicate ConnectStep(step: Step) {
    step.ConnectFails? || step.ConnectSucceeds? || step.OpenCheck? || step.UseLease? || step.CloseConn?
  }

  lemma ConnectsRecordNothing(w: World, cfg: PoolConfig, step: Step)
    requires Enabled(w, cfg, step) && ConnectStep(step)
    ensures Apply(w, cfg, step).userReleaseMs == w.userReleaseMs
  {
    hide Act, Decide, LeaveWait, Reap, ReapCount, Recycle, Taken, Conns, Rollback, Drain, Release;
  }

  lemma OnlyReleasesRecord(w: World, cfg: PoolConfig, step: Step)
    requires Enabled(w, cfg, step) && !AcquirerStep(step) && !ConnectStep(step) && !step.ReleaseLease?
    ensures Apply(w, cfg, step).userReleaseMs == w.userReleaseMs
  {
    hide Enabled, Act, Decide, LeaveWait, Reap, ReapCount, Recycle, Taken, Conns, Rollback, Drain, Release;
  }

  lemma ReleaseRecords(w: World, cfg: PoolConfig, i: nat, wakes: set<Tid>, c: Conn)
    requires Enabled(w, cfg, ReleaseLease(i, wakes))
    ensures var w' := Apply(w, cfg, ReleaseLease(i, wakes));
            Recorded(w.userReleaseMs, UserReleaseBy(w, ReleaseLease(i, wakes), c), w'.userReleaseMs, c)
  {
    hide Release, WakesOf;
  }

  lemma UserReleaseStep(w: World, cfg: PoolConfig, step: Step, c: Conn)
    requires Enabled(w, cfg, step)
    ensures Recorded(w.userReleaseMs, UserReleaseBy(w, step, c), Apply(w, cfg, step).userReleaseMs, c)
  {
    hide Apply, Enabled;
    if step.ReleaseLease? {
      ReleaseRecords(w, cfg, step.i, step.wakes, c);
    } else if AcquirerStep(step) {
      AcquirersRecordNothing(w, cfg, step);
    } else if ConnectStep(step) {
      ConnectsRecordNothing(w, cfg, step);
    } else {
      OnlyReleasesRecord(w, cfg, step);
    }
  }

  lemma RecordedTwice(
    a: map<Conn, int>, at: Option<int>, b: map<Conn, int>, last: Option<int>, d: map<Conn, int>, c: Conn)
    requires Recorded(a, at, b, c) && Recorded(b, last, d, c)
    ensures Recorded(a, if last.Some? then last else at, d, c)
  {}

  lemma {:induction false} UserReleaseIsTracked(cfg: PoolConfig, run: seq<World>, steps: seq<Step>, k: nat, c: Conn)
    requires IsRun(cfg, run, steps) && k < |run|
    ensures Recorded(run[0].userReleaseMs, LastUserRelease(run, steps, k, c), run[k].userReleaseMs, c)
  {
    if k > 0 {
      hide IsRun, Apply, Enabled, UserReleaseBy, Recorded;
      RunStep(cfg, run, steps, k - 1);
      UserReleaseIsTracked(cfg, run, steps, k - 1, c);
      UserReleaseStep(run[k - 1], cfg, steps[k - 1], c);
      RecordedTwice(run[0].userReleaseMs, LastUserRelease(run, steps, k - 1, c), run[k - 1].userReleaseMs,
                    UserReleaseBy(run[k - 1], steps[k - 1], c), run[k].userReleaseMs, c);
    }
  }

  /** An idle entry's timestamp is the time of its last user release, or of its seeding,
      however many keepalive leases came between. */
  lemma IdleAgeIgnoresKeepalive(cfg: PoolConfig, run: seq<World>, steps: seq<Step>, k: nat, e: Entry, times: seq<int>)
    requires IsRun(cfg, run, steps) && k < |run| && Initial(run[0], cfg, times)
    requires e in run[k].slot.available
    ensures var last := LastUserRelease(run, steps, k, e.conn);
            if last.Some? then e.lastUserReleaseMs == last.value
            else e.conn < |times| && e.lastUserReleaseMs == times[e.conn]
  {
    RunKeepsInv(cfg, run, steps, k);
    UserReleaseIsTracked(cfg, run, steps, k, e.conn);
  }
}
