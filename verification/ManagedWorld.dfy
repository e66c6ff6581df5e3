/**
 The managed connection in all interleavings: acquirers, lease returns, the
 keepalive fiber (watch, ping, recycle, reconnect) and `close`.
 */
module ManagedWorlds {
  import opened Basics
  import opened ManagedSlots

  type Tid = nat

  /** Where the keepalive fiber is between critical sections. */
  datatype Keeper =
    | Watching(snapshot: Option<nat>)
    | Pinging(conn: Conn)
    | Discarding(conn: Conn)
    | Reconnecting
    | Reconnected(conn: Conn)
    | Stopped

  datatype World = World(
    slot: Slot,
    nowMs: int,
    parked: set<Tid>,
    woken: set<Tid>,
    deadline: map<Tid, Option<int>>,
    stopFlag: bool,
    cvClosed: bool,
    lastTaken: bool,
    keeper: Keeper,
    leases: seq<Conn>,
    doomed: seq<Conn>,
    closeLog: seq<Conn>,
    nextConn: Conn)

  datatype Step =
    | Tick(ms: nat)
    | Acquire(t: Tid, until: Option<int>)
    | Resume(t: Tid)
    | WaitFails(t: Tid)
    | SpuriousWake(t: Tid)
    | ReturnLease(i: nat, wakes: set<Tid>)
    | Snapshot
    | RecycleSnapshot
    | PingTick
    | PingSucceeds(wakes: set<Tid>)
    | PingFails
    | DiscardConn
    | ConnectFails
    | ConnectSucceeds
    | StoreReconnected(wakes: set<Tid>)
    | KeeperStops
    | RaiseStopFlag
    | MarkClosed
    | CloseCondvar
    | TakeLast
    | CloseConn(i: nat)

  predicate Expired(w: World, t: Tid) {
    t in w.deadline && w.deadline[t].Some? && w.deadline[t].value <= w.nowMs
  }

  /** A put into an open slot signals one parked acquirer, if there is one. */
  predicate WakesOfPut(w: World, wakes: set<Tid>) {
    if w.slot.closed || w.parked == {} then wakes == {}
    else wakes <= w.parked && |wakes| == 1
  }

  predicate Enabled(w: World, step: Step) {
    match step
    case Tick(_) => true
    case Acquire(t, _) => t !in w.parked + w.woken
    case Resume(t) => t in w.woken
    case WaitFails(t) => t in w.parked + w.woken
    case SpuriousWake(t) => t in w.parked
    case ReturnLease(i, wakes) => i < |w.leases| && WakesOfPut(w, wakes)
    case Snapshot => w.keeper.Watching?
    case RecycleSnapshot => w.keeper.Watching? && w.keeper.snapshot.Some?
    case PingTick => w.keeper.Watching?
    case PingSucceeds(wakes) => w.keeper.Pinging? && WakesOfPut(w, wakes)
    case PingFails => w.keeper.Pinging?
    case DiscardConn => w.keeper.Discarding?
    case ConnectFails => w.keeper.Reconnecting?
    case ConnectSucceeds => w.keeper.Reconnecting?
    case StoreReconnected(wakes) => w.keeper.Reconnected? && WakesOfPut(w, wakes)
    case KeeperStops => w.stopFlag && (w.keeper.Watching? || w.keeper.Reconnecting?)
    case RaiseStopFlag => true
    case MarkClosed => w.stopFlag
    case CloseCondvar => w.slot.closed
    case TakeLast => w.cvClosed && w.keeper.Stopped?
    case CloseConn(i) => i < |w.doomed|
  }

  function LeaveWait(w: World, t: Tid): World {
    w.(parked := w.parked - {t}, woken := w.woken - {t})
  }

  function Act(w: World, t: Tid, until: Option<int>, decided: (Decision, Slot)): World {
    var w' := w.(slot := decided.1);
    match decided.0
    case GotConn(c) => w'.(leases := w.leases + [c])
    case WasError(_) => w'
    case MustWait => w'.(parked := w.parked + {t}, deadline := w.deadline[t := until])
  }

  function Store(w: World, c: Conn, wakes: set<Tid>): World {
    var (toClose, slot') := Put(w.slot, c);
    w.(slot := slot', doomed := if toClose.Some? then w.doomed + [c] else w.doomed,
       parked := w.parked - wakes, woken := w.woken + wakes)
  }

  function Keep(w: World, taken: Option<Conn>, discard: bool): World {
    match taken
    case Some(c) => w.(keeper := if discard then Discarding(c) else Pinging(c))
    case None => w.(keeper := Watching(None))
  }

  function Apply(w: World, step: Step): World
    requires Enabled(w, step)
  {
    match step
    case Tick(ms) => w.(nowMs := w.nowMs + ms)
    case Acquire(t, until) => Act(w, t, until, Decide(w.slot, until.Some? && until.value <= w.nowMs))
    case Resume(t) =>
      Act(LeaveWait(w, t), t, if t in w.deadline then w.deadline[t] else None, Decide(w.slot, Expired(w, t)))
    case WaitFails(t) => LeaveWait(w, t)
    case SpuriousWake(t) => w.(parked := w.parked - {t}, woken := w.woken + {t})
    case ReturnLease(i, wakes) => Store(w.(leases := Without(w.leases, i)), w.leases[i], wakes)
    case Snapshot =>
      w.(keeper := Watching(if w.slot.conn.Some? then Some(w.slot.watchToken) else None))
    case RecycleSnapshot =>
      var (taken, slot') := TakeIfToken(w.slot, w.keeper.snapshot.value);
      Keep(w.(slot := slot'), taken, true)
    case PingTick => Keep(w.(slot := w.slot.(conn := None)), w.slot.conn, false)
    case PingSucceeds(wakes) => Store(w, w.keeper.conn, wakes).(keeper := Watching(None))
    case PingFails => w.(keeper := Discarding(w.keeper.conn))
    case DiscardConn => w.(keeper := Reconnecting, closeLog := w.closeLog + [w.keeper.conn])
    case ConnectFails => w
    case ConnectSucceeds => w.(keeper := Reconnected(w.nextConn), nextConn := w.nextConn + 1)
    case StoreReconnected(wakes) => Store(w, w.keeper.conn, wakes).(keeper := Watching(None))
    case KeeperStops => w.(keeper := Stopped)
    case RaiseStopFlag => w.(stopFlag := true)
    case MarkClosed => w.(slot := w.slot.(closed := true))
    case CloseCondvar => w.(cvClosed := true)
    case TakeLast =>
      w.(slot := w.slot.(conn := None), lastTaken := true,
         doomed := if w.slot.conn.Some? then w.doomed + [w.slot.conn.value] else w.doomed)
    case CloseConn(i) => w.(doomed := Without(w.doomed, i), closeLog := w.closeLog + [w.doomed[i]])
  }

  /** Right after `open`; with keepalive off the fiber is gone from the start. */
  ghost predicate Initial(w: World) {
    && w.slot == Slot(Some(0), false, 0)
    && w.parked == {} && w.woken == {} && w.deadline == map[]
    && !w.stopFlag && !w.cvClosed && !w.lastTaken
    && (w.keeper == Watching(None) || w.keeper == Stopped)
    && w.leases == [] && w.doomed == [] && w.closeLog == [] && w.nextConn == 1
  }

  ghost predicate IsRun(run: seq<World>, steps: seq<Step>) {
    && |run| == |steps| + 1 && Initial(run[0])
    && forall i {:trigger steps[i]} :: 0 <= i < |steps| ==>
         Enabled(run[i], steps[i]) && run[i + 1] == Apply(run[i], steps[i])
  }

  // ------------------------------------------------------------ invariants

  function InSlot(s: Slot, c: Conn): nat {
    if s.conn == Some(c) then 1 else 0
  }

  function InKeeper(k: Keeper, c: Conn): nat {
    if (k.Pinging? || k.Discarding? || k.Reconnected?) && k.conn == c then 1 else 0
  }

  function Owners(w: World, c: Conn): nat {
    InSlot(w.slot, c) + InKeeper(w.keeper, c) + multiset(w.leases)[c] + multiset(w.doomed)[c]
    + multiset(w.closeLog)[c]
  }

  /** How many connections are in circulation, counting one being replaced. */
  function InCirculation(w: World): nat {
    (if w.slot.conn.Some? then 1 else 0) + |w.leases|
    + if w.keeper.Watching? || w.keeper.Stopped? then 0 else 1
  }

  /** Each connection ever made is in exactly one place, or closed exactly once. */
  ghost predicate OneOwner(w: World) {
    forall c: Conn :: Owners(w, c) == if c < w.nextConn then 1 else 0
  }

  ghost predicate Phases(w: World) {
    && InCirculation(w) <= 1
    && (!w.stopFlag ==> InCirculation(w) == 1)
    && w.parked !! w.woken
    && (w.slot.closed ==> w.stopFlag)
    && (w.cvClosed ==> w.slot.closed)
    && (w.lastTaken ==> w.slot.conn.None? && w.keeper.Stopped? && w.cvClosed)
    && (w.keeper.Watching? && w.keeper.snapshot.Some? ==> w.keeper.snapshot.value <= w.slot.watchToken)
  }

  ghost predicate Inv(w: World) {
    OneOwner(w) && Phases(w)
  }

  lemma StoreKeepsInv(w: World, c: Conn, wakes: set<Tid>)
    requires forall d: Conn :: Owners(w, d) + (if d == c then 1 else 0) == if d < w.nextConn then 1 else 0
    requires InCirculation(w) == 0
    requires w.parked !! w.woken && WakesOfPut(w, wakes)
    requires w.slot.closed ==> w.stopFlag
    requires w.cvClosed ==> w.slot.closed
    requires w.lastTaken ==> w.keeper.Stopped? && w.cvClosed
    requires w.keeper.Watching? && w.keeper.snapshot.Some? ==> w.keeper.snapshot.value <= w.slot.watchToken
    ensures Inv(Store(w, c, wakes))
  {
    var w' := Store(w, c, wakes);
    assert forall d :: Owners(w', d) == Owners(w, d) + if d == c then 1 else 0;
  }

  lemma SameOwners(w: World, w': World)
    requires OneOwner(w) && w'.nextConn == w.nextConn && forall c: Conn :: Owners(w', c) == Owners(w, c)
    ensures OneOwner(w')
  {
    hide Owners;
  }

  lemma ActKeepsOwner(w: World, t: Tid, until: Option<int>, expired: bool)
    requires OneOwner(w)
    ensures OneOwner(Act(w, t, until, Decide(w.slot, expired)))
  {
    hide OneOwner;
    var w' := Act(w, t, until, Decide(w.slot, expired));
    assert w'.keeper == w.keeper && w'.doomed == w.doomed && w'.closeLog == w.closeLog;
    forall c: Conn
      ensures Owners(w', c) == Owners(w, c)
    {}
    SameOwners(w, w');
  }

  lemma ActKeepsPhases(w: World, t: Tid, until: Option<int>, expired: bool)
    requires Phases(w) && t !in w.parked + w.woken
    ensures Phases(Act(w, t, until, Decide(w.slot, expired)))
  {}

  lemma ActKeepsInv(w: World, t: Tid, until: Option<int>, expired: bool)
    requires Inv(w) && t !in w.parked + w.woken
    ensures Inv(Act(w, t, until, Decide(w.slot, expired)))
  {
    hide Act, Decide, OneOwner, Phases;
    ActKeepsOwner(w, t, until, expired);
    ActKeepsPhases(w, t, until, expired);
  }

  predicate KeeperStep(step: Step) {
    step.RecycleSnapshot? || step.PingTick? || step.DiscardConn? || step.ConnectSucceeds?
  }

  /** The fiber moves what it takes, if anything, from the slot into its own hands. */
  lemma KeepKeepsOwner(w: World, slot': Slot, taken: Option<Conn>, discard: bool)
    requires OneOwner(w) && w.keeper.Watching?
    requires if taken.Some? then w.slot.conn == taken && slot'.conn == None else slot'.conn == w.slot.conn
    ensures OneOwner(Keep(w.(slot := slot'), taken, discard))
  {
    hide OneOwner;
    var w' := Keep(w.(slot := slot'), taken, discard);
    assert w'.leases == w.leases && w'.doomed == w.doomed && w'.closeLog == w.closeLog;
    forall c: Conn
      ensures InSlot(w'.slot, c) + InKeeper(w'.keeper, c) == InSlot(w.slot, c) + InKeeper(w.keeper, c)
    {}
    SameOwners(w, w');
  }

  lemma RecycleKeepsOwner(w: World)
    requires OneOwner(w) && Enabled(w, RecycleSnapshot)
    ensures OneOwner(Apply(w, RecycleSnapshot))
  {
    hide Keep, OneOwner;
    var (taken, slot') := TakeIfToken(w.slot, w.keeper.snapshot.value);
    KeepKeepsOwner(w, slot', taken, true);
  }

  lemma PingTickKeepsOwner(w: World)
    requires OneOwner(w) && Enabled(w, PingTick)
    ensures OneOwner(Apply(w, PingTick))
  {
    hide Keep, OneOwner;
    KeepKeepsOwner(w, w.slot.(conn := None), w.slot.conn, false);
  }

  lemma DiscardKeepsOwner(w: World)
    requires OneOwner(w) && Enabled(w, DiscardConn)
    ensures OneOwner(Apply(w, DiscardConn))
  {
    var w' := Apply(w, DiscardConn);
    assert forall c: Conn :: Owners(w', c) == Owners(w, c);
  }

  lemma ReconnectKeepsOwner(w: World)
    requires OneOwner(w) && Enabled(w, ConnectSucceeds)
    ensures OneOwner(Apply(w, ConnectSucceeds))
  {
    var w' := Apply(w, ConnectSucceeds);
    assert forall c: Conn :: Owners(w', c) == Owners(w, c) + if c == w.nextConn then 1 else 0;
  }

  lemma KeeperStepKeepsPhases(w: World, step: Step)
    requires Phases(w) && Enabled(w, step) && KeeperStep(step)
    ensures Phases(Apply(w, step))
  {}

  lemma KeeperStepKeepsInv(w: World, step: Step)
    requires Inv(w) && Enabled(w, step) && KeeperStep(step)
    ensures Inv(Apply(w, step))
  {
    hide Apply, Enabled, OneOwner, Phases;
    KeeperStepKeepsPhases(w, step);
    match step {
      case RecycleSnapshot => RecycleKeepsOwner(w);
      case PingTick => PingTickKeepsOwner(w);
      case DiscardConn => DiscardKeepsOwner(w);
      case ConnectSucceeds => ReconnectKeepsOwner(w);
    }
  }

  lemma ReturnLeaseKeepsInv(w: World, i: nat, wakes: set<Tid>)
    requires Inv(w) && Enabled(w, ReturnLease(i, wakes))
    ensures Inv(Apply(w, ReturnLease(i, wakes)))
  {
    WithoutIsOneLess(w.leases, i);
    var mid := w.(leases := Without(w.leases, i));
    assert forall d :: Owners(mid, d) + (if d == w.leases[i] then 1 else 0) == Owners(w, d);
    StoreKeepsInv(w.(leases := Without(w.leases, i)), w.leases[i], wakes);
  }

  lemma KeeperStoreKeepsInv(w: World, wakes: set<Tid>)
    requires Inv(w) && (w.keeper.Pinging? || w.keeper.Reconnected?) && WakesOfPut(w, wakes)
    ensures Inv(Store(w, w.keeper.conn, wakes).(keeper := Watching(None)))
  {
    var mid := w.(keeper := Watching(None));
    assert forall d :: Owners(mid, d) + (if d == w.keeper.conn then 1 else 0) == Owners(w, d);
    StoreKeepsInv(mid, w.keeper.conn, wakes);
  }

  /** Steps that move no connection. */
  predicate QuietStep(step: Step) {
    || step.Tick? || step.WaitFails? || step.SpuriousWake? || step.Snapshot? || step.PingFails?
    || step.ConnectFails? || step.KeeperStops? || step.RaiseStopFlag? || step.MarkClosed? || step.CloseCondvar?
  }

  /** Nothing has moved but, perhaps, the fiber on to another thing with the connection it holds. */
  ghost predicate SamePlaces(w: World, w': World) {
    && w'.slot.conn == w.slot.conn && w'.leases == w.leases && w'.doomed == w.doomed && w'.closeLog == w.closeLog
    && w'.nextConn == w.nextConn
    && forall c: Conn :: InKeeper(w'.keeper, c) == InKeeper(w.keeper, c)
  }

  lemma SamePlacesSameOwners(w: World, w': World)
    requires OneOwner(w) && SamePlaces(w, w')
    ensures OneOwner(w')
  {
    assert forall c: Conn :: Owners(w', c) == Owners(w, c);
  }

  lemma QuietStepMovesNothing(w: World, step: Step)
    requires Enabled(w, step) && QuietStep(step)
    ensures SamePlaces(w, Apply(w, step))
  {
    hide Act, Store, TakeIfToken, Keep, Decide, Owners;
  }

  lemma QuietStepKeepsOwner(w: World, step: Step)
    requires OneOwner(w) && Enabled(w, step) && QuietStep(step)
    ensures OneOwner(Apply(w, step))
  {
    hide OneOwner, SamePlaces, Apply, Enabled;
    QuietStepMovesNothing(w, step);
    SamePlacesSameOwners(w, Apply(w, step));
  }

  lemma TakeLastKeepsOwner(w: World)
    requires OneOwner(w) && Enabled(w, TakeLast)
    ensures OneOwner(Apply(w, TakeLast))
  {
    var w' := Apply(w, TakeLast);
    assert forall c: Conn :: Owners(w', c) == Owners(w, c);
  }

  lemma CloseConnKeepsOwner(w: World, i: nat)
    requires OneOwner(w) && Enabled(w, CloseConn(i))
    ensures OneOwner(Apply(w, CloseConn(i)))
  {
    var w' := Apply(w, CloseConn(i));
    WithoutIsOneLess(w.doomed, i);
    assert forall c: Conn :: Owners(w', c) == Owners(w, c);
  }

  lemma OtherStepsKeepPhases(w: World, step: Step)
    requires Phases(w) && Enabled(w, step) && (QuietStep(step) || step.TakeLast? || step.CloseConn?)
    ensures Phases(Apply(w, step))
  {
    hide Act, Store, TakeIfToken, Keep;
  }

  lemma OtherStepsKeepInv(w: World, step: Step)
    requires Inv(w) && Enabled(w, step) && (QuietStep(step) || step.TakeLast? || step.CloseConn?)
    ensures Inv(Apply(w, step))
  {
    hide Apply, Enabled, OneOwner, Phases;
    OtherStepsKeepPhases(w, step);
    match step {
      case TakeLast => TakeLastKeepsOwner(w);
      case CloseConn(i) => CloseConnKeepsOwner(w, i);
      case _ => QuietStepKeepsOwner(w, step);
    }
  }

  lemma LeaveWaitKeepsInv(w: World, t: Tid)
    requires Inv(w)
    ensures Inv(LeaveWait(w, t)) && t !in LeaveWait(w, t).parked + LeaveWait(w, t).woken
  {
    var w' := LeaveWait(w, t);
    assert forall c: Conn :: Owners(w', c) == Owners(w, c);
  }

  /** Every step of every thread keeps the invariants. */
  lemma StepKeepsInv(w: World, step: Step)
    requires Inv(w) && Enabled(w, step)
    ensures Inv(Apply(w, step))
  {
    hide Inv, Decide, Act, Store, Keep, TakeIfToken, LeaveWait;
    match step {
      case Acquire(t, until) => ActKeepsInv(w, t, until, until.Some? && until.value <= w.nowMs);
      case Resume(t) =>
        LeaveWaitKeepsInv(w, t);
        LeaveWaitKeepsSlot(w, t);
        ActKeepsInv(LeaveWait(w, t), t, if t in w.deadline then w.deadline[t] else None, Expired(w, t));
      case ReturnLease(i, wakes) => ReturnLeaseKeepsInv(w, i, wakes);
      case PingSucceeds(wakes) => KeeperStoreKeepsInv(w, wakes);
      case StoreReconnected(wakes) => KeeperStoreKeepsInv(w, wakes);
      case RecycleSnapshot => KeeperStepKeepsInv(w, step);
      case PingTick => KeeperStepKeepsInv(w, step);
      case DiscardConn => KeeperStepKeepsInv(w, step);
      case ConnectSucceeds => KeeperStepKeepsInv(w, step);
      case _ => OtherStepsKeepInv(w, step);
    }
  }

  lemma LeaveWaitKeepsSlot(w: World, t: Tid)
    ensures LeaveWait(w, t).slot == w.slot
  {}

  /** Single owner in every run: one connection in circulation until close begins, at
      most one ever, and each connection in exactly one place or closed exactly once. */
  lemma {:induction false} RunKeepsInv(run: seq<World>, steps: seq<Step>, k: nat)
    requires IsRun(run, steps) && k < |run|
    ensures Inv(run[k])
  {
    RunStart(run, steps);
    hide IsRun, Enabled, Apply, Inv;
    if k > 0 {
      RunStep(run, steps, k - 1);
      RunKeepsInv(run, steps, k - 1);
      StepKeepsInv(run[k - 1], steps[k - 1]);
    }
  }

  lemma RunStart(run: seq<World>, steps: seq<Step>)
    requires IsRun(run, steps)
    ensures |run| == |steps| + 1 && Inv(run[0])
  {}

  lemma RunStep(run: seq<World>, steps: seq<Step>, i: nat)
    requires IsRun(run, steps) && i + 1 < |run|
    ensures |run| == |steps| + 1 && Enabled(run[i], steps[i]) && run[i + 1] == Apply(run[i], steps[i])
  {
    hide Enabled, Apply, Initial;
  }

  // ------------------------------------------------------------ theorems

  /** A put never overwrites a connection: the slot is empty whenever one comes back. */
  lemma PutFindsTheSlotEmpty(w: World, step: Step)
    requires Inv(w) && Enabled(w, step)
    requires step.ReturnLease? || step.PingSucceeds? || step.StoreReconnected?
    ensures w.slot.conn.None?
  {}

  /** A filled slot with an unchanged token was never emptied in between. */
  lemma {:induction false} SameTokenSameIncarnation(run: seq<World>, steps: seq<Step>, i: nat, m: nat, j: nat)
    requires IsRun(run, steps) && i <= m <= j < |run|
    requires run[j].slot.conn.Some? && run[j].slot.watchToken == run[i].slot.watchToken
    ensures run[m].slot.conn == run[j].slot.conn
    ensures run[i].slot.watchToken <= run[m].slot.watchToken
    decreases j
  {
    RunStart(run, steps);
    hide IsRun;
    if i < j {
      WatchTokenNeverFalls(run, steps, i, j - 1);
      RunTokenStep(run, steps, j - 1);
      if m < j {
        SameTokenSameIncarnation(run, steps, i, m, j - 1);
      }
    }
  }

  /** The token never falls, and while it stays a filled slot holds what it held. */
  ghost predicate TokenGuards(s: Slot, s': Slot) {
    s.watchToken <= s'.watchToken && (s'.conn.Some? && s'.watchToken == s.watchToken ==> s'.conn == s.conn)
  }

  lemma ActGuards(w: World, t: Tid, until: Option<int>, expired: bool)
    ensures TokenGuards(w.slot, Act(w, t, until, Decide(w.slot, expired)).slot)
  {}

  lemma StoreGuards(w: World, c: Conn, wakes: set<Tid>)
    ensures TokenGuards(w.slot, Store(w, c, wakes).slot)
  {}

  lemma SameStep(w: World, step: Step)
    requires Enabled(w, step)
    ensures TokenGuards(w.slot, Apply(w, step).slot)
  {
    hide Act, Store, Decide, Put, LeaveWait;
    match step {
      case Acquire(t, until) => ActGuards(w, t, until, until.Some? && until.value <= w.nowMs);
      case Resume(t) =>
        LeaveWaitKeepsSlot(w, t);
        ActGuards(LeaveWait(w, t), t, if t in w.deadline then w.deadline[t] else None, Expired(w, t));
      case WaitFails(t) => LeaveWaitKeepsSlot(w, t);
      case ReturnLease(i, wakes) => StoreGuards(w.(leases := Without(w.leases, i)), w.leases[i], wakes);
      case PingSucceeds(wakes) => StoreGuards(w, w.keeper.conn, wakes);
      case StoreReconnected(wakes) => StoreGuards(w, w.keeper.conn, wakes);
      case _ =>
    }
  }

  lemma RunTokenStep(run: seq<World>, steps: seq<Step>, j: nat)
    requires IsRun(run, steps) && j < |steps|
    ensures run[j].slot.watchToken <= run[j + 1].slot.watchToken
    ensures run[j + 1].slot.conn.Some? && run[j + 1].slot.watchToken == run[j].slot.watchToken ==>
              run[j + 1].slot.conn == run[j].slot.conn
  {
    RunStep(run, steps, j);
    hide IsRun, Enabled, Apply;
    SameStep(run[j], steps[j]);
  }

  lemma {:induction false} WatchTokenNeverFalls(run: seq<World>, steps: seq<Step>, i: nat, j: nat)
    requires IsRun(run, steps) && i <= j < |run|
    ensures run[i].slot.watchToken <= run[j].slot.watchToken
    decreases j
  {
    RunStart(run, steps);
    hide IsRun;
    if i < j {
      WatchTokenNeverFalls(run, steps, i, j - 1);
      RunTokenStep(run, steps, j - 1);
    }
  }

  /** A token-checked take at `j` with the snapshot of time `i` yields a connection exactly
      when the snapshotted incarnation has been idle in the slot ever since, and it
      yields that connection. */
  lemma TakeReturnsOnlyTheSnapshot(run: seq<World>, steps: seq<Step>, i: nat, j: nat)
    requires IsRun(run, steps) && i <= j < |run| && run[i].slot.conn.Some?
    ensures var taken := TakeIfToken(run[j].slot, run[i].slot.watchToken).0;
            && (taken.Some? ==> taken == run[i].slot.conn)
            && (taken.Some? <==> forall m :: i <= m <= j ==>
                 run[m].slot.conn == run[i].slot.conn && run[m].slot.watchToken == run[i].slot.watchToken)
  {
    if run[j].slot.conn.Some? && run[j].slot.watchToken == run[i].slot.watchToken {
      forall m | i <= m <= j
        ensures run[m].slot.conn == run[i].slot.conn && run[m].slot.watchToken == run[i].slot.watchToken
      {
        SameTokenSameIncarnation(run, steps, i, m, j);
        SameTokenSameIncarnation(run, steps, i, i, j);
        WatchTokenNeverFalls(run, steps, i, m);
        WatchTokenNeverFalls(run, steps, m, j);
      }
    }
  }

  /** While the source is open, nobody sleeps beside a stored connection unless a
      signalled acquirer is about to look. */
  ghost predicate NoLostWakeup(w: World) {
    !w.slot.closed && w.parked != {} && w.slot.conn.Some? ==> w.woken != {}
  }

  predicate LosesSignal(w: World, step: Step) {
    (step.Resume? && Expired(w, step.t)) || (step.WaitFails? && step.t in w.woken)
  }

  /** Exactly one kind of step breaks that: the last signalled acquirer leaving without
      the stored connection while others sleep. */
  lemma WakeupKeptExactlyUnlessSignalLost(w: World, step: Step)
    requires Inv(w) && Enabled(w, step) && NoLostWakeup(w)
    ensures NoLostWakeup(Apply(w, step)) <==>
            !(&& !w.slot.closed && LosesSignal(w, step)
              && w.parked != {} && w.slot.conn.Some? && w.woken == {step.t})
  {
    match step {
      case Resume(t) => assert w.parked - {t} == w.parked && (w.woken - {t} == {} <==> w.woken == {t});
      case WaitFails(t) =>
        assert t in w.woken ==> w.parked - {t} == w.parked && (w.woken - {t} == {} <==> w.woken == {t});
        assert t in w.parked ==> w.woken - {t} == w.woken;
      case ReturnLease(_, wakes) => assert wakes != {} ==> w.woken + wakes != {};
      case PingSucceeds(wakes) => assert wakes != {} ==> w.woken + wakes != {};
      case StoreReconnected(wakes) => assert wakes != {} ==> w.woken + wakes != {};
      case _ =>
    }
  }

  /** So in every run in which no signal is lost, the promise holds throughout. */
  lemma {:induction false} NoLostWakeupInRuns(run: seq<World>, steps: seq<Step>, k: nat)
    requires IsRun(run, steps) && k < |run|
    requires forall i :: 0 <= i < k ==> !LosesSignal(run[i], steps[i])
    ensures NoLostWakeup(run[k])
  {
    if k > 0 {
      RunStep(run, steps, k - 1);
      hide IsRun, Enabled, Apply, Inv;
      NoLostWakeupInRuns(run, steps, k - 1);
      RunKeepsInv(run, steps, k - 1);
      WakeupKeptExactlyUnlessSignalLost(run[k - 1], steps[k - 1]);
    }
  }

  /** The world after the first `k` steps of `LOST_STEPS`, from a fresh source without keepalive. */
  function LostWorld(k: nat): World {
    var start := World(Slot(Some(0), false, 0), 0, {}, {}, map[], false, false, false, Stopped, [], [], [], 1);
    var leased := start.(slot := Slot(None, false, 0), leases := [0]);
    var one := leased.(parked := {2}, deadline := map[2 := Some(10)]);
    var two := one.(parked := {2, 3}, deadline := map[2 := Some(10), 3 := None]);
    var returned := two.(slot := Slot(Some(0), false, 1), leases := [], parked := {3}, woken := {2});
    if k == 0 then start
    else if k == 1 then leased
    else if k == 2 then one
    else if k == 3 then two
    else if k == 4 then returned
    else if k == 5 then returned.(nowMs := 10)
    else returned.(nowMs := 10, woken := {})
  }

  const LOST_STEPS: seq<Step> :=
    [Acquire(1, None), Acquire(2, Some(10)), Acquire(3, None), ReturnLease(0, {2}), Tick(10), Resume(2)]

  ghost predicate LostStepOk(k: nat)
    requires k < |LOST_STEPS|
  {
    Enabled(LostWorld(k), LOST_STEPS[k]) && LostWorld(k + 1) == Apply(LostWorld(k), LOST_STEPS[k])
  }

  lemma LostStepsPark()
    ensures LostStepOk(0) && LostStepOk(1)
  {
    assert {} + {2} == {2};
  }

  lemma LostStepParkSecond()
    ensures LostStepOk(2)
  {
    assert {2} + {3} == {2, 3};
  }

  lemma LostStepReturn()
    ensures LostStepOk(3)
  {
    assert {2, 3} - {2} == {3} && |{2}| == 1;
  }

  lemma LostStepsExpire()
    ensures LostStepOk(4) && LostStepOk(5)
  {
    assert {3} - {2} == {3} && {2} - {2} == {};
  }

  /** The premise is needed here too: thread 2's budget runs out after it was signalled, and
      thread 3 then sleeps beside the stored connection with nobody to wake it. */
  lemma LostWakeupHappens() returns (run: seq<World>)
    ensures IsRun(run, LOST_STEPS)
    ensures var w := run[6];
            !w.slot.closed && w.slot.conn == Some(0) && w.parked == {3} && w.woken == {} && w.leases == []
  {
    LostStepsPark();
    LostStepParkSecond();
    LostStepReturn();
    LostStepsExpire();
    run := seq(7, k requires 0 <= k < 7 => LostWorld(k));
    forall i | 0 <= i < |LOST_STEPS|
      ensures Enabled(run[i], LOST_STEPS[i]) && run[i + 1] == Apply(run[i], LOST_STEPS[i])
    {
      assert LostStepOk(i);
    }
  }

  /** What is left to wind down once closed, weighted by the steps it still needs at most. */
  function Remaining(w: World): nat {
    (match w.keeper
     case Watching(_) => 1
     case Pinging(_) => 6
     case Discarding(_) => 5
     case Reconnecting => 4
     case Reconnected(_) => 3
     case Stopped => 0)
    + 2 * |w.leases| + (if w.slot.conn.Some? then 6 else 0) + |w.doomed|
  }

  /** The steps that move a connection, or the fiber, towards the end. */
  predicate OwnerStep(step: Step) {
    || step.ReturnLease? || step.PingSucceeds? || step.PingFails? || step.DiscardConn?
    || step.ConnectSucceeds? || step.StoreReconnected? || step.KeeperStops? || step.CloseConn?
  }

  lemma ClosedStepWindsDown(w: World, step: Step)
    requires Inv(w) && Enabled(w, step) && w.slot.closed
    ensures OnlyWindsDown(w, Apply(w, step))
  {
    hide OneOwner, Phases, Owners;
  }

  lemma ClosedStepShrinks(w: World, step: Step)
    requires Inv(w) && Enabled(w, step) && w.slot.closed
    ensures Remaining(Apply(w, step)) + (if OwnerStep(step) then 1 else 0) <= Remaining(w)
  {
    hide OneOwner, Owners;
  }

  /** After close nothing is stored or leased again, and every owner's step brings the
      end strictly nearer. */
  lemma CloseWinsStep(w: World, step: Step)
    requires Inv(w) && Enabled(w, step) && w.slot.closed
    ensures OnlyWindsDown(w, Apply(w, step))
    ensures Remaining(Apply(w, step)) + (if OwnerStep(step) then 1 else 0) <= Remaining(w)
  {
    hide Apply, Enabled, Inv, OnlyWindsDown, Remaining;
    ClosedStepWindsDown(w, step);
    ClosedStepShrinks(w, step);
  }

  /** How many of the steps `i .. j - 1` are owner steps. */
  function OwnerSteps(steps: seq<Step>, i: nat, j: nat): nat
    requires i <= j <= |steps|
    decreases j
  {
    if i == j then 0 else OwnerSteps(steps, i, j - 1) + if OwnerStep(steps[j - 1]) then 1 else 0
  }

  /** Nothing is leased or stored that was not before. */
  ghost predicate OnlyWindsDown(w: World, w': World) {
    && w'.slot.closed
    && (w'.slot.conn.Some? ==> w'.slot.conn == w.slot.conn)
    && |w'.leases| <= |w.leases|
    && (forall c :: c in w'.leases ==> c in w.leases)
  }

  lemma StillClosed(w: World, w': World)
    requires OnlyWindsDown(w, w')
    ensures w'.slot.closed
  {}

  lemma WindDownReflexive(w: World)
    requires w.slot.closed
    ensures OnlyWindsDown(w, w)
  {}

  lemma WindDownTransitive(a: World, b: World, c: World)
    requires OnlyWindsDown(a, b) && OnlyWindsDown(b, c)
    ensures OnlyWindsDown(a, c)
  {}

  lemma CloseWinsRunStep(run: seq<World>, steps: seq<Step>, j: nat)
    requires IsRun(run, steps) && j < |steps| && run[j].slot.closed
    ensures OnlyWindsDown(run[j], run[j + 1])
    ensures Remaining(run[j + 1]) + (if OwnerStep(steps[j]) then 1 else 0) <= Remaining(run[j])
  {
    hide IsRun, Apply, Enabled, Remaining, OnlyWindsDown, Inv;
    RunStart(run, steps);
    RunStep(run, steps, j);
    RunKeepsInv(run, steps, j);
    CloseWinsStep(run[j], steps[j]);
  }

  /** Over any stretch of a run after close began: winding down only, and at most as many
      owner steps as there was work. */
  lemma {:induction false} CloseWinsInRuns(run: seq<World>, steps: seq<Step>, i: nat, j: nat)
    requires IsRun(run, steps) && i <= j < |run| && run[i].slot.closed
    ensures OnlyWindsDown(run[i], run[j])
    ensures Remaining(run[j]) + OwnerSteps(steps, i, j) <= Remaining(run[i])
    decreases j
  {
    hide IsRun, Remaining, OnlyWindsDown, Inv;
    RunStart(run, steps);
    if i == j {
      WindDownReflexive(run[i]);
    } else {
      CloseWinsInRuns(run, steps, i, j - 1);
      StillClosed(run[i], run[j - 1]);
      CloseWinsRunStep(run, steps, j - 1);
      WindDownTransitive(run[i], run[j - 1], run[j]);
    }
  }

  /** In every run, once the waiters have been sent home, some step brings the end nearer
      while work remains. */
  lemma WindDownNeverSticks(run: seq<World>, steps: seq<Step>, k: nat) returns (step: Step)
    requires IsRun(run, steps) && k < |run| && run[k].cvClosed && Remaining(run[k]) > 0
    ensures Enabled(run[k], step) && Remaining(Apply(run[k], step)) < Remaining(run[k])
  {
    RunKeepsInv(run, steps, k);
    step := NextTowardsTheEnd(run[k]);
  }

  lemma NextTowardsTheEnd(w: World) returns (step: Step)
    requires Inv(w) && w.cvClosed && Remaining(w) > 0
    ensures Enabled(w, step) && Remaining(Apply(w, step)) < Remaining(w)
  {
    if w.leases != [] {
      step := ReturnLease(0, {});
    } else if w.doomed != [] {
      step := CloseConn(0);
    } else {
      match w.keeper
      case Watching(_) => step := KeeperStops;
      case Pinging(_) => step := PingFails;
      case Discarding(_) => step := DiscardConn;
      case Reconnecting => step := KeeperStops;
      case Reconnected(_) => step := StoreReconnected({});
      case Stopped => step := TakeLast;
    }
  }

  /** Once close took what was left and the last lease and close resolved, every
      connection ever opened has been closed exactly once. */
  lemma ClosedDownCompletely(w: World)
    requires Inv(w) && w.lastTaken && w.leases == [] && w.doomed == []
    ensures forall c: Conn :: multiset(w.closeLog)[c] == if c < w.nextConn then 1 else 0
  {
    forall c: Conn
      ensures multiset(w.closeLog)[c] == if c < w.nextConn then 1 else 0
    {
      assert Owners(w, c) == multiset(w.closeLog)[c];
    }
  }
}
