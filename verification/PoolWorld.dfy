/**
 The pool with everything that happens around its mutex: acquirers parked on the
 condition variable, connects in flight, leases out, connections waiting to be
 closed. A `Step` is one critical section (or one unlocked event); steps of
 different threads interleave in any order.
 */
module PoolWorlds {
  import opened Basics
  import opened PoolSlots

  type Tid = nat

  /** A `LeasedConn`: its connection and what its release callback captured. */
  datatype Lease = Lease(conn: Conn, preservedTs: int, isKeepalive: bool)

  datatype World = World(
    slot: Slot,
    nowMs: int,
    // acquirers inside wait/wait_timeout: asleep, and signalled but not yet holding the lock
    parked: set<Tid>,
    woken: set<Tid>,
    deadline: map<Tid, Option<int>>,
    cvClosed: bool,
    drained: bool,
    // reservations whose connect is running, and connects that returned a connection
    connecting: nat,
    connected: seq<Conn>,
    leases: seq<Lease>,
    // connections taken out for an unlocked rpc.close, and the closes done so far
    doomed: seq<Conn>,
    closeLog: seq<Conn>,
    nextConn: Conn,
    // connections whose session is Ready, and the last user release (or seeding) of each
    ready: set<Conn>,
    userReleaseMs: map<Conn, int>)

  datatype Step =
    | Tick(ms: nat)
    | Acquire(t: Tid, until: Option<int>)
    | Resume(t: Tid)
    | WaitFails(t: Tid, failure: WaitError)
    | SpuriousWake(t: Tid)
    | KeepaliveAcquire
    | ConnectFails(wakes: set<Tid>)
    | ConnectSucceeds
    | OpenCheck(i: nat)
    | UseLease(i: nat, stillReady: bool)
    | ReleaseLease(i: nat, wakes: set<Tid>)
    | RecycleIdles(tokens: seq<nat>, wakes: set<Tid>)
    | ReapIdles
    | MarkClosed
    | CloseCondvar
    | DrainPool
    | CloseConn(i: nat)

  function LeaseConns(ls: seq<Lease>): (cs: seq<Conn>)
    ensures |cs| == |ls|
  {
    seq(|ls|, i requires 0 <= i < |ls| => ls[i].conn)
  }

  predicate Expired(w: World, t: Tid) {
    t in w.deadline && w.deadline[t].Some? && w.deadline[t].value <= w.nowMs
  }

  /** `n` calls of signal_one wake `wakes`: one parked thread each while there are any;
      on a closed condition variable they do nothing. */
  predicate WakesOf(w: World, n: nat, wakes: set<Tid>) {
    if w.cvClosed then wakes == {}
    else wakes <= w.parked && |wakes| == Min(n, |w.parked|)
  }

  function Wake(w: World, wakes: set<Tid>): World {
    w.(parked := w.parked - wakes, woken := w.woken + wakes)
  }

  predicate Enabled(w: World, cfg: PoolConfig, step: Step) {
    match step
    case Tick(_) => true
    case Acquire(t, _) => t !in w.parked && t !in w.woken
    case Resume(t) => t in w.woken
    case WaitFails(t, failure) =>
      && t in w.parked + w.woken
      && (failure == WaitClosed ==> w.cvClosed)
      && (failure == WaitTimeout ==> Expired(w, t))
    case SpuriousWake(t) => t in w.parked
    case KeepaliveAcquire => true
    case ConnectFails(wakes) => w.connecting > 0 && WakesOf(w, 1, wakes)
    case ConnectSucceeds => w.connecting > 0
    case OpenCheck(i) => i < |w.connected|
    case UseLease(i, _) => i < |w.leases|
    case ReleaseLease(i, wakes) => i < |w.leases| && WakesOf(w, 1, wakes)
    case RecycleIdles(tokens, wakes) => WakesOf(w, |Taken(w.slot.available, tokens)|, wakes)
    case ReapIdles => true
    case MarkClosed => true
    case CloseCondvar => w.slot.closed
    case DrainPool => w.cvClosed
    case CloseConn(i) => i < |w.doomed|
  }

  /** What the acquirer `t` does with its decision once the lock is dropped. */
  function Act(w: World, t: Tid, until: Option<int>, isKeepalive: bool, decided: (Decision, Slot)): World {
    var w' := w.(slot := decided.1);
    match decided.0
    case GotConn(c, ts) => w'.(leases := w.leases + [Lease(c, ts, isKeepalive)])
    case ShouldOpen => w'.(connecting := w.connecting + 1)
    case WasError(_) => w'
    case MustWait => w'.(parked := w.parked + {t}, deadline := w.deadline[t := until])
  }

  function LeaveWait(w: World, t: Tid): World {
    w.(parked := w.parked - {t}, woken := w.woken - {t},
       slot := w.slot.(waiters := w.slot.waiters - 1))
  }

  function Apply(w: World, cfg: PoolConfig, step: Step): World
    requires Enabled(w, cfg, step)
  {
    match step
    case Tick(ms) => w.(nowMs := w.nowMs + ms)
    case Acquire(t, until) =>
      var expired := until.Some? && until.value <= w.nowMs;
      Act(w, t, until, false, Decide(w.slot, cfg.maxConns, false, expired))
    case Resume(t) =>
      var w' := LeaveWait(w, t);
      var until := if t in w.deadline then w.deadline[t] else None;
      Act(w', t, until, false, Decide(w'.slot, cfg.maxConns, false, Expired(w, t)))
    case WaitFails(t, _) => LeaveWait(w, t)
    case SpuriousWake(t) => Wake(w, {t})
    case KeepaliveAcquire => Act(w, 0, None, true, Decide(w.slot, cfg.maxConns, true, false))
    case ConnectFails(wakes) => Wake(w.(slot := Rollback(w.slot), connecting := w.connecting - 1), wakes)
    case ConnectSucceeds =>
      w.(connecting := w.connecting - 1, connected := w.connected + [w.nextConn],
         nextConn := w.nextConn + 1, ready := w.ready + {w.nextConn})
    case OpenCheck(i) =>
      var c := w.connected[i];
      var w' := w.(connected := Without(w.connected, i));
      if w.slot.closed then w'.(slot := Rollback(w.slot), doomed := w.doomed + [c])
      else w'.(leases := w.leases + [Lease(c, w.nowMs, false)])
    case UseLease(i, stillReady) =>
      var c := w.leases[i].conn;
      w.(ready := if stillReady then w.ready + {c} else w.ready - {c})
    case ReleaseLease(i, wakes) =>
      var l := w.leases[i];
      var healthy := l.conn in w.ready;
      var (toClose, slot') := Release(w.slot, l.conn, healthy, l.isKeepalive, l.preservedTs, w.nowMs);
      var w' := w.(slot := slot', leases := Without(w.leases, i),
                   doomed := if toClose.Some? then w.doomed + [toClose.value] else w.doomed,
                   userReleaseMs := if l.isKeepalive then w.userReleaseMs
                                    else w.userReleaseMs[l.conn := w.nowMs]);
      Wake(w', wakes)
    case RecycleIdles(tokens, wakes) =>
      Wake(w.(slot := Recycle(w.slot, tokens),
              doomed := w.doomed + Conns(Taken(w.slot.available, tokens))), wakes)
    case ReapIdles =>
      var k := ReapCount(w.slot.available, w.slot.totalCount, cfg, w.nowMs);
      w.(slot := Reap(w.slot, cfg, w.nowMs), doomed := w.doomed + Conns(w.slot.available[..k]))
    case MarkClosed => w.(slot := w.slot.(closed := true))
    case CloseCondvar => w.(cvClosed := true)
    case DrainPool =>
      w.(slot := Drain(w.slot), drained := true, doomed := w.doomed + Conns(w.slot.available))
    case CloseConn(i) =>
      w.(doomed := Without(w.doomed, i), closeLog := w.closeLog + [w.doomed[i]],
         ready := w.ready - {w.doomed[i]})
  }

  /** The world right after `open` returned, with the seeds taken at `seedTimes`. */
  ghost predicate Initial(w: World, cfg: PoolConfig, seedTimes: seq<int>) {
    && cfg.Valid() && |seedTimes| == cfg.minIdle
    && w.slot == Seeded(seedTimes)
    && w.parked == {} && w.woken == {} && w.deadline == map[]
    && !w.cvClosed && !w.drained
    && w.connecting == 0 && w.connected == [] && w.leases == [] && w.doomed == [] && w.closeLog == []
    && w.nextConn == |seedTimes|
    && w.ready == (set c: Conn | c in Conns(w.slot.available))
    && w.userReleaseMs == (map c | 0 <= c < |seedTimes| :: seedTimes[c])
  }

  /** A run: worlds joined by steps, starting from a freshly opened pool. */
  ghost predicate IsRun(cfg: PoolConfig, run: seq<World>, steps: seq<Step>) {
    && |run| == |steps| + 1
    && (exists times :: Initial(run[0], cfg, times))
    && forall i {:trigger steps[i]} :: 0 <= i < |steps| ==>
         Enabled(run[i], cfg, steps[i]) && run[i + 1] == Apply(run[i], cfg, steps[i])
  }

  // ------------------------------------------------------------ invariants

  ghost predicate Counts(w: World, cfg: PoolConfig) {
    && w.slot.totalCount == |w.slot.available| + w.slot.activeCount
    && w.slot.activeCount == |w.leases| + w.connecting + |w.connected|
    && w.slot.totalCount <= cfg.maxConns
    && w.slot.waiters == |w.parked| + |w.woken|
    && w.parked !! w.woken
    && w.parked + w.woken <= w.deadline.Keys
  }

  /** How many places hold connection `c`; every rpc.close of it counts as one. */
  function Owners(w: World, c: Conn): nat {
    multiset(Conns(w.slot.available))[c] + multiset(w.connected)[c] + multiset(LeaseConns(w.leases))[c]
    + multiset(w.doomed)[c] + multiset(w.closeLog)[c]
  }

  /** Each connection opened so far is in exactly one place, or closed exactly once. */
  ghost predicate OneOwner(w: World) {
    forall c: Conn :: Owners(w, c) == if c < w.nextConn then 1 else 0
  }

  ghost predicate Tokens(w: World) {
    && TokensIncrease(w.slot.available)
    && forall e :: e in w.slot.available ==> e.watchToken <= w.slot.nextWatchToken
  }

  ghost predicate IdleAges(w: World) {
    && (forall e :: e in w.slot.available ==>
          e.conn in w.userReleaseMs && e.lastUserReleaseMs == w.userReleaseMs[e.conn])
    && (forall l :: l in w.leases && l.isKeepalive ==>
          l.conn in w.userReleaseMs && l.preservedTs == w.userReleaseMs[l.conn])
  }

  ghost predicate IdleIsReady(w: World) {
    && (forall e :: e in w.slot.available ==> e.conn in w.ready)
    && (forall c :: c in w.connected ==> c in w.ready)
  }

  ghost predicate Phases(w: World) {
    && (w.cvClosed ==> w.slot.closed)
    && (w.drained ==> w.cvClosed && w.slot.available == [])
  }

  ghost predicate Inv(w: World, cfg: PoolConfig) {
    && Counts(w, cfg) && OneOwner(w) && Tokens(w) && IdleAges(w) && IdleIsReady(w) && Phases(w)
  }

  // ------------------------------------------------------ ownership, helpers

  lemma LeaseConnsWithout(ls: seq<Lease>, i: nat)
    requires i < |ls|
    ensures multiset(LeaseConns(ls)) == multiset(LeaseConns(Without(ls, i))) + multiset{ls[i].conn}
  {
    assert LeaseConns(Without(ls, i)) == Without(LeaseConns(ls), i);
    WithoutIsOneLess(LeaseConns(ls), i);
  }

  lemma LeaseConnsPlus(ls: seq<Lease>, l: Lease)
    ensures multiset(LeaseConns(ls + [l])) == multiset(LeaseConns(ls)) + multiset{l.conn}
  {
    assert LeaseConns(ls + [l]) == LeaseConns(ls) + [l.conn];
  }

  lemma ConnsSplit(es: seq<Entry>, k: nat)
    requires k <= |es|
    ensures multiset(Conns(es)) == multiset(Conns(es[..k])) + multiset(Conns(es[k..]))
  {
    assert Conns(es) == Conns(es[..k]) + Conns(es[k..]);
  }

  lemma ConnsPlus(es: seq<Entry>, e: Entry)
    ensures multiset(Conns(es + [e])) == multiset(Conns(es)) + multiset{e.conn}
  {
    assert Conns(es + [e]) == Conns(es) + [e.conn];
  }

  /** A leased connection is not idle and not leased twice. */
  lemma LeasedIsNotElsewhere(w: World, i: nat)
    requires OneOwner(w) && i < |w.leases|
    ensures forall e :: e in w.slot.available ==> e.conn != w.leases[i].conn
    ensures forall c :: c in w.connected ==> c != w.leases[i].conn
    ensures forall l :: l in Without(w.leases, i) ==> l.conn != w.leases[i].conn
    ensures w.leases[i].conn !in w.doomed && w.leases[i].conn !in w.closeLog
  {
    var c := w.leases[i].conn;
    LeaseConnsWithout(w.leases, i);
    assert Owners(w, c) <= 1;
    assert c in w.doomed ==> multiset(w.doomed)[c] >= 1;
    assert c in w.closeLog ==> multiset(w.closeLog)[c] >= 1;
    forall e | e in w.slot.available
      ensures e.conn != c
    {
      var k :| 0 <= k < |w.slot.available| && w.slot.available[k] == e;
      assert Conns(w.slot.available)[k] == e.conn;
      assert e.conn in multiset(Conns(w.slot.available));
    }
    forall d | d in w.connected
      ensures d != c
    {
      assert d in multiset(w.connected);
    }
    var rest := Without(w.leases, i);
    forall l | l in rest
      ensures l.conn != c
    {
      var k :| 0 <= k < |rest| && rest[k] == l;
      assert LeaseConns(rest)[k] == l.conn;
      assert l.conn in multiset(LeaseConns(rest));
    }
  }

  // ------------------------------------------- each step keeps the invariants

  lemma InitialHolds(w: World, cfg: PoolConfig, times: seq<int>)
    requires Initial(w, cfg, times)
    ensures Inv(w, cfg)
  {
    var cs := Conns(w.slot.available);
    assert cs == seq(|times|, i => i);
    forall c: Conn
      ensures Owners(w, c) == if c < w.nextConn then 1 else 0
    {
      RangeOnce(|times|, c);
    }
    forall e | e in w.slot.available
      ensures e.conn in w.ready
    {
      var k :| 0 <= k < |times| && w.slot.available[k] == e;
      assert cs[k] == e.conn;
    }
  }

  lemma {:induction false} RangeOnce(n: nat, c: nat)
    ensures multiset(seq(n, i => i))[c] == if c < n then 1 else 0
  {
    if n > 0 {
      RangeOnce(n - 1, c);
      assert seq(n, i => i) == seq(n - 1, i => i) + [n - 1];
    }
  }

  lemma SameOwners(w: World, w': World)
    requires OneOwner(w) && w'.nextConn == w.nextConn && forall c: Conn :: Owners(w', c) == Owners(w, c)
    ensures OneOwner(w')
  {
    hide Owners;
  }

  /** Nothing has moved. */
  predicate SamePlaces(w: World, w': World) {
    && w'.slot.available == w.slot.available && w'.connected == w.connected && w'.leases == w.leases
    && w'.doomed == w.doomed && w'.closeLog == w.closeLog && w'.nextConn == w.nextConn
  }

  lemma SamePlacesSameOwners(w: World, w': World)
    requires OneOwner(w) && SamePlaces(w, w')
    ensures OneOwner(w')
  {
    assert forall c: Conn :: Owners(w', c) == Owners(w, c);
  }

  /** The newest idle entry becomes a lease. */
  lemma LeasingKeepsOwner(w: World, w': World, e: Entry, l: Lease)
    requires OneOwner(w) && w.slot.available == w'.slot.available + [e] && w'.leases == w.leases + [l]
    requires l.conn == e.conn && w'.connected == w.connected && w'.doomed == w.doomed && w'.closeLog == w.closeLog
    requires w'.nextConn == w.nextConn
    ensures OneOwner(w')
  {
    hide OneOwner;
    ConnsPlus(w'.slot.available, e);
    LeaseConnsPlus(w.leases, l);
    assert forall c: Conn :: Owners(w', c) == Owners(w, c);
    SameOwners(w, w');
  }

  lemma ActKeepsOwner(w: World, cfg: PoolConfig, t: Tid, until: Option<int>, isKeepalive: bool, expired: bool)
    requires OneOwner(w)
    ensures OneOwner(Act(w, t, until, isKeepalive, Decide(w.slot, cfg.maxConns, isKeepalive, expired)))
  {
    hide OneOwner;
    var (d, s) := Decide(w.slot, cfg.maxConns, isKeepalive, expired);
    var w' := Act(w, t, until, isKeepalive, (d, s));
    if d.GotConn? {
      var es := w.slot.available;
      var e := es[|es| - 1];
      assert es == es[..|es| - 1] + [e];
      LeasingKeepsOwner(w, w', e, Lease(d.conn, d.ts, isKeepalive));
    } else {
      SamePlacesSameOwners(w, w');
    }
  }

  /** What each decision has done to the counters. */
  ghost predicate Counted(d: Decision, s: Slot, s': Slot, maxConns: int) {
    match d
    case GotConn(_, _) =>
      && |s'.available| + 1 == |s.available| && s'.activeCount == s.activeCount + 1
      && s'.totalCount == s.totalCount && s'.waiters == s.waiters
    case ShouldOpen =>
      && |s'.available| == |s.available| && s'.activeCount == s.activeCount + 1
      && s'.totalCount == s.totalCount + 1 <= maxConns && s'.waiters == s.waiters
    case WasError(_) => s' == s
    case MustWait => s' == s.(waiters := s.waiters + 1)
  }

  lemma DecideCounts(s: Slot, maxConns: int, isKeepalive: bool, expired: bool)
    ensures var (d, s') := Decide(s, maxConns, isKeepalive, expired);
            Counted(d, s, s', maxConns) && (d.MustWait? ==> !isKeepalive)
  {}

  /** A decision and the acquirer's move on it keep the counters in step. */
  lemma CountedKeepsCounts(w: World, cfg: PoolConfig, t: Tid, until: Option<int>, isKeepalive: bool, d: Decision,
                           s': Slot)
    requires Counts(w, cfg) && Counted(d, w.slot, s', cfg.maxConns)
    requires d.MustWait? ==> t !in w.parked && t !in w.woken
    ensures Counts(Act(w, t, until, isKeepalive, (d, s')), cfg)
  {}

  lemma ActKeepsCounts(w: World, cfg: PoolConfig, t: Tid, until: Option<int>, isKeepalive: bool, expired: bool)
    requires Counts(w, cfg) && (isKeepalive || (t !in w.parked && t !in w.woken))
    ensures Counts(Act(w, t, until, isKeepalive, Decide(w.slot, cfg.maxConns, isKeepalive, expired)), cfg)
  {
    hide Decide, Counts, Counted, Act;
    DecideCounts(w.slot, cfg.maxConns, isKeepalive, expired);
    var (d, s') := Decide(w.slot, cfg.maxConns, isKeepalive, expired);
    CountedKeepsCounts(w, cfg, t, until, isKeepalive, d, s');
  }

  lemma ActKeepsIdle(w: World, cfg: PoolConfig, t: Tid, until: Option<int>, isKeepalive: bool, expired: bool)
    requires Tokens(w) && IdleAges(w) && IdleIsReady(w) && Phases(w)
    ensures var w' := Act(w, t, until, isKeepalive, Decide(w.slot, cfg.maxConns, isKeepalive, expired));
            Tokens(w') && IdleAges(w') && IdleIsReady(w') && Phases(w')
  {}

  lemma ActKeepsInv(w: World, cfg: PoolConfig, t: Tid, until: Option<int>, isKeepalive: bool, expired: bool)
    requires Inv(w, cfg) && cfg.Valid()
    requires isKeepalive || (t !in w.parked && t !in w.woken)
    ensures Inv(Act(w, t, until, isKeepalive, Decide(w.slot, cfg.maxConns, isKeepalive, expired)), cfg)
  {
    hide Act, Decide, Counts, OneOwner, Tokens, IdleAges, IdleIsReady, Phases;
    ActKeepsOwner(w, cfg, t, until, isKeepalive, expired);
    ActKeepsCounts(w, cfg, t, until, isKeepalive, expired);
    ActKeepsIdle(w, cfg, t, until, isKeepalive, expired);
  }

  lemma LeaveWaitKeepsInv(w: World, cfg: PoolConfig, t: Tid)
    requires Inv(w, cfg) && t in w.parked + w.woken
    ensures Inv(LeaveWait(w, t), cfg)
    ensures t !in LeaveWait(w, t).parked && t !in LeaveWait(w, t).woken
  {
    assert forall c :: Owners(LeaveWait(w, t), c) == Owners(w, c);
  }

  lemma WakeKeepsInv(w: World, cfg: PoolConfig, wakes: set<Tid>)
    requires Inv(w, cfg) && wakes <= w.parked
    ensures Inv(Wake(w, wakes), cfg)
  {
    assert |w.parked - wakes| == |w.parked| - |wakes|;
    assert |w.woken + wakes| == |w.woken| + |wakes|;
    assert forall c :: Owners(Wake(w, wakes), c) == Owners(w, c);
  }

  lemma ConnectSucceedsKeepsOwner(w: World, cfg: PoolConfig)
    requires OneOwner(w) && Enabled(w, cfg, ConnectSucceeds)
    ensures OneOwner(Apply(w, cfg, ConnectSucceeds))
  {
    var w' := Apply(w, cfg, ConnectSucceeds);
    assert w'.slot == w.slot && w'.leases == w.leases && w'.doomed == w.doomed && w'.closeLog == w.closeLog;
    assert forall c: Conn :: Owners(w', c) == Owners(w, c) + if c == w.nextConn then 1 else 0;
  }

  lemma OpenCheckKeepsOwner(w: World, cfg: PoolConfig, i: nat)
    requires OneOwner(w) && Enabled(w, cfg, OpenCheck(i))
    ensures OneOwner(Apply(w, cfg, OpenCheck(i)))
  {
    hide OneOwner;
    var w' := Apply(w, cfg, OpenCheck(i));
    WithoutIsOneLess(w.connected, i);
    LeaseConnsPlus(w.leases, Lease(w.connected[i], w.nowMs, false));
    assert w'.slot.available == w.slot.available && w'.closeLog == w.closeLog;
    assert forall c: Conn :: Owners(w', c) == Owners(w, c);
    SameOwners(w, w');
  }

  lemma OpenStepsKeepOwner(w: World, cfg: PoolConfig, step: Step)
    requires OneOwner(w) && Enabled(w, cfg, step)
    requires step.ConnectFails? || step.ConnectSucceeds? || step.OpenCheck?
    ensures OneOwner(Apply(w, cfg, step))
  {
    hide OneOwner;
    match step {
      case ConnectFails(wakes) => SamePlacesSameOwners(w, Apply(w, cfg, step));
      case ConnectSucceeds => ConnectSucceedsKeepsOwner(w, cfg);
      case OpenCheck(i) => OpenCheckKeepsOwner(w, cfg, i);
    }
  }

  lemma OpenStepsKeepCounts(w: World, cfg: PoolConfig, step: Step)
    requires Counts(w, cfg) && Enabled(w, cfg, step)
    requires step.ConnectFails? || step.ConnectSucceeds? || step.OpenCheck?
    ensures Counts(Apply(w, cfg, step), cfg)
  {
    if step.ConnectFails? {
      assert |w.parked - step.wakes| == |w.parked| - |step.wakes|;
      assert |w.woken + step.wakes| == |w.woken| + |step.wakes|;
    }
  }

  lemma OpenStepsKeepIdle(w: World, cfg: PoolConfig, step: Step)
    requires Tokens(w) && IdleAges(w) && IdleIsReady(w) && Phases(w) && Enabled(w, cfg, step)
    requires step.ConnectFails? || step.ConnectSucceeds? || step.OpenCheck?
    ensures var w' := Apply(w, cfg, step);
            Tokens(w') && IdleAges(w') && IdleIsReady(w') && Phases(w')
  {
    hide Act, Decide, Release, Recycle, Reap, Drain;
  }

  lemma OpenStepsKeepInv(w: World, cfg: PoolConfig, step: Step)
    requires Inv(w, cfg) && Enabled(w, cfg, step)
    requires step.ConnectFails? || step.ConnectSucceeds? || step.OpenCheck?
    ensures Inv(Apply(w, cfg, step), cfg)
  {
    hide Apply, Enabled, OneOwner, Counts, Tokens, IdleAges, IdleIsReady, Phases;
    OpenStepsKeepOwner(w, cfg, step);
    OpenStepsKeepCounts(w, cfg, step);
    OpenStepsKeepIdle(w, cfg, step);
  }

  lemma ReleaseKeepsOwner(w: World, cfg: PoolConfig, i: nat, wakes: set<Tid>)
    requires OneOwner(w) && Enabled(w, cfg, ReleaseLease(i, wakes))
    ensures OneOwner(Apply(w, cfg, ReleaseLease(i, wakes)))
  {
    var w' := Apply(w, cfg, ReleaseLease(i, wakes));
    LeaseConnsWithout(w.leases, i);
    if |w'.slot.available| > |w.slot.available| {
      ConnsPlus(w.slot.available, w'.slot.available[|w.slot.available|]);
    }
    assert forall c :: Owners(w', c) == Owners(w, c);
  }

  lemma ReleaseKeepsIdle(w: World, cfg: PoolConfig, i: nat, wakes: set<Tid>)
    requires OneOwner(w) && IdleAges(w) && IdleIsReady(w)
    requires Enabled(w, cfg, ReleaseLease(i, wakes))
    ensures IdleAges(Apply(w, cfg, ReleaseLease(i, wakes)))
    ensures IdleIsReady(Apply(w, cfg, ReleaseLease(i, wakes)))
  {
    LeasedIsNotElsewhere(w, i);
    assert forall l :: l in Without(w.leases, i) ==> l in w.leases;
    assert w.leases[i] in w.leases;
  }

  lemma ReleaseKeepsInv(w: World, cfg: PoolConfig, i: nat, wakes: set<Tid>)
    requires Inv(w, cfg) && Enabled(w, cfg, ReleaseLease(i, wakes))
    ensures Inv(Apply(w, cfg, ReleaseLease(i, wakes)), cfg)
  {
    ReleaseKeepsOwner(w, cfg, i, wakes);
    ReleaseKeepsIdle(w, cfg, i, wakes);
    assert |w.parked - wakes| == |w.parked| - |wakes|;
    assert |w.woken + wakes| == |w.woken| + |wakes|;
  }

  lemma UseKeepsInv(w: World, cfg: PoolConfig, i: nat, stillReady: bool)
    requires Inv(w, cfg) && i < |w.leases|
    ensures Inv(Apply(w, cfg, UseLease(i, stillReady)), cfg)
  {
    LeasedIsNotElsewhere(w, i);
    assert forall c :: Owners(Apply(w, cfg, UseLease(i, stillReady)), c) == Owners(w, c);
  }

  lemma RecycleKeepsInv(w: World, cfg: PoolConfig, tokens: seq<nat>, wakes: set<Tid>)
    requires Inv(w, cfg) && Enabled(w, cfg, RecycleIdles(tokens, wakes))
    ensures Inv(Apply(w, cfg, RecycleIdles(tokens, wakes)), cfg)
  {
    var es := w.slot.available;
    var mid := w.(slot := Recycle(w.slot, tokens), doomed := w.doomed + Conns(Taken(es, tokens)));
    KeptTakenSplit(es, tokens);
    KeptKeepsOrder(es, tokens);
    forall e
      ensures e in Kept(es, tokens) ==> e in es
    {
      KeptTakenMembers(es, tokens, e);
    }
    assert forall c :: Owners(mid, c) == Owners(w, c);
    WakeKeepsInv(mid, cfg, wakes);
  }

  lemma ReapKeepsInv(w: World, cfg: PoolConfig)
    requires Inv(w, cfg)
    ensures Inv(Apply(w, cfg, ReapIdles), cfg)
  {
    var w' := Apply(w, cfg, ReapIdles);
    var k := ReapCount(w.slot.available, w.slot.totalCount, cfg, w.nowMs);
    ConnsSplit(w.slot.available, k);
    assert forall c :: Owners(w', c) == Owners(w, c);
    assert forall e :: e in w'.slot.available ==> e in w.slot.available;
  }

  lemma DrainKeepsInv(w: World, cfg: PoolConfig)
    requires Inv(w, cfg) && w.cvClosed
    ensures Inv(Apply(w, cfg, DrainPool), cfg)
  {
    var w' := Apply(w, cfg, DrainPool);
    assert Conns(w'.slot.available) == [];
    assert forall c :: Owners(w', c) == Owners(w, c);
  }

  /** A connection about to be closed is neither idle nor on its way to an acquirer. */
  lemma DoomedIsNotUsable(w: World, i: nat)
    requires OneOwner(w) && i < |w.doomed|
    ensures forall e :: e in w.slot.available ==> e.conn != w.doomed[i]
    ensures w.doomed[i] !in w.connected
  {
    var c := w.doomed[i];
    assert multiset(w.doomed)[c] >= 1 && Owners(w, c) <= 1;
    assert c in w.connected ==> multiset(w.connected)[c] >= 1;
    forall e | e in w.slot.available
      ensures e.conn != c
    {
      var k :| 0 <= k < |w.slot.available| && w.slot.available[k] == e;
      assert Conns(w.slot.available)[k] == e.conn;
      assert e.conn in multiset(Conns(w.slot.available));
    }
  }

  lemma CloseConnKeepsInv(w: World, cfg: PoolConfig, i: nat)
    requires Inv(w, cfg) && i < |w.doomed|
    ensures Inv(Apply(w, cfg, CloseConn(i)), cfg)
  {
    DoomedIsNotUsable(w, i);
    WithoutIsOneLess(w.doomed, i);
    assert forall c :: Owners(Apply(w, cfg, CloseConn(i)), c) == Owners(w, c);
  }

  /** Every step of every thread keeps the invariants. */
  lemma StepKeepsInv(w: World, cfg: PoolConfig, step: Step)
    requires Inv(w, cfg) && cfg.Valid() && Enabled(w, cfg, step)
    ensures Inv(Apply(w, cfg, step), cfg)
  {
    match step {
      case Acquire(t, until) => ActKeepsInv(w, cfg, t, until, false, until.Some? && until.value <= w.nowMs);
      case Resume(t) =>
        LeaveWaitKeepsInv(w, cfg, t);
        ActKeepsInv(LeaveWait(w, t), cfg, t, if t in w.deadline then w.deadline[t] else None, false, Expired(w, t));
      case WaitFails(t, _) => LeaveWaitKeepsInv(w, cfg, t);
      case SpuriousWake(t) => WakeKeepsInv(w, cfg, {t});
      case KeepaliveAcquire => ActKeepsInv(w, cfg, 0, None, true, false);
      case ConnectFails(_) => OpenStepsKeepInv(w, cfg, step);
      case ConnectSucceeds => OpenStepsKeepInv(w, cfg, step);
      case OpenCheck(_) => OpenStepsKeepInv(w, cfg, step);
      case UseLease(i, r) => UseKeepsInv(w, cfg, i, r);
      case ReleaseLease(i, wakes) => ReleaseKeepsInv(w, cfg, i, wakes);
      case RecycleIdles(tokens, wakes) => RecycleKeepsInv(w, cfg, tokens, wakes);
      case ReapIdles => ReapKeepsInv(w, cfg);
      case DrainPool => DrainKeepsInv(w, cfg);
      case CloseConn(i) => CloseConnKeepsInv(w, cfg, i);
      case _ => SamePlacesSameOwners(w, Apply(w, cfg, step));
    }
  }

  lemma RunStart(cfg: PoolConfig, run: seq<World>, steps: seq<Step>) returns (times: seq<int>)
    requires IsRun(cfg, run, steps)
    ensures |run| == |steps| + 1 && Initial(run[0], cfg, times) && cfg.Valid()
  {
    times :| Initial(run[0], cfg, times);
  }

  lemma RunStep(cfg: PoolConfig, run: seq<World>, steps: seq<Step>, i: nat)
    requires IsRun(cfg, run, steps) && i + 1 < |run|
    ensures |run| == |steps| + 1 && Enabled(run[i], cfg, steps[i]) && run[i + 1] == Apply(run[i], cfg, steps[i])
  {
    hide Enabled, Apply, Initial;
  }

  /** Conservation in every interleaving: the counters, the ownership of every
      connection, tokens, ages and readiness hold in every world of every run. */
  lemma {:induction false} RunKeepsInv(cfg: PoolConfig, run: seq<World>, steps: seq<Step>, k: nat)
    requires IsRun(cfg, run, steps) && k < |run|
    ensures Inv(run[k], cfg)
  {
    hide IsRun, Enabled, Apply, Inv;
    var times := RunStart(cfg, run, steps);
    if k == 0 {
      InitialHolds(run[0], cfg, times);
    } else {
      RunStep(cfg, run, steps, k - 1);
      RunKeepsInv(cfg, run, steps, k - 1);
      StepKeepsInv(run[k - 1], cfg, steps[k - 1]);
    }
  }
}
