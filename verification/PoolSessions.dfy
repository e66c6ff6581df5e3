/**
 A pool run with the wire session of every connection in it. What the pool treats as a healthy
 connection is here what the session's own flags say, after whatever was done with it.
 */
module PoolSessions {
  import opened Basics
  import PoolFates
  import opened PoolSlots
  import opened PoolTheorems
  import opened PoolWorlds
  import Commands
  import Runs = SessionRuns
  import SessionTheorems
  import Wire = WireTypes

  type Client = Runs.Client

  /** `is_alive`: a look at the session's flags, no input or output. */
  predicate IsAlive(s: Wire.Session) {
    s.reusable && !s.isClosed && !s.activeStatement
  }

  /** A session as the handshake leaves it, and what set-up is given. */
  datatype Connecting = Connecting(
    greeted: Wire.Session, setNames: Commands.Sql, autocommit: bool, budget: Commands.Budget)

  ghost predicate Greeted(c: Connecting) {
    SessionTheorems.Sound(c.greeted) && SessionTheorems.Ready(c.greeted)
  }

  function SetUpOf(c: Connecting): (Result<(), Commands.SetupError>, Wire.Session) {
    Commands.SetUp(c.greeted, c.setNames, c.autocommit, c.budget)
  }

  /** The pool, and the session of every connection ever opened. The pool's own `ready` field
      is not consulted. */
  datatype Pooled = Pooled(pool: World, sessions: map<Conn, Client>)

  ghost function Alive(sessions: map<Conn, Client>): set<Conn> {
    set c | c in sessions && IsAlive(sessions[c].s)
  }

  /** The world the pool sees: a connection is ready when its session is alive. */
  ghost function View(p: Pooled): World {
    p.pool.(ready := Alive(p.sessions))
  }

  datatype Event =
    | PoolStep(step: Step)
    | Opened(connecting: Connecting)            // an open whose set-up succeeds
    | Used(i: nat, calls: seq<Runs.Call>)       // any calls by the holder of lease `i`

  /** Connecting and using are the events below, not bare steps. */
  predicate LeavesSessionsAlone(step: Step) {
    !step.ConnectSucceeds? && !step.UseLease?
  }

  function HolderOf(p: Pooled, i: nat): Conn
    requires i < |p.pool.leases|
  {
    p.pool.leases[i].conn
  }

  ghost function StepOf(p: Pooled, ev: Event): Step
    requires ev.Used? ==> ev.i < |p.pool.leases| && HolderOf(p, ev.i) in p.sessions
  {
    match ev
    case PoolStep(step) => step
    case Opened(_) => ConnectSucceeds
    case Used(i, calls) => UseLease(i, IsAlive(Runs.Run(p.sessions[HolderOf(p, i)], calls).s))
  }

  ghost predicate Possible(p: Pooled, cfg: PoolConfig, ev: Event) {
    && (ev.Used? ==> ev.i < |p.pool.leases| && HolderOf(p, ev.i) in p.sessions)
    && (ev.PoolStep? ==> LeavesSessionsAlone(ev.step))
    && (ev.Opened? ==> Greeted(ev.connecting) && SetUpOf(ev.connecting).0.Ok?)
    && Enabled(View(p), cfg, StepOf(p, ev))
  }

  /** The connection an event touches, and what becomes of its session. */
  ghost function SessionsAfter(p: Pooled, ev: Event): map<Conn, Client>
    requires ev.Used? ==> ev.i < |p.pool.leases| && HolderOf(p, ev.i) in p.sessions
  {
    match ev
    case Opened(connecting) => p.sessions[p.pool.nextConn := Runs.Client(SetUpOf(connecting).1, None)]
    case Used(i, calls) => p.sessions[HolderOf(p, i) := Runs.Run(p.sessions[HolderOf(p, i)], calls)]
    case PoolStep(CloseConn(i)) =>
      if i < |p.pool.doomed| && p.pool.doomed[i] in p.sessions then
        var c := p.pool.doomed[i];
        p.sessions[c := Runs.Perform(p.sessions[c], Runs.CallClose)]
      else p.sessions
    case PoolStep(_) => p.sessions
  }

  ghost function Next(p: Pooled, cfg: PoolConfig, ev: Event): Pooled
    requires Possible(p, cfg, ev)
  {
    Pooled(Apply(View(p), cfg, StepOf(p, ev)), SessionsAfter(p, ev))
  }

  /** A seed is a connection whose set-up succeeded. */
  ghost predicate Seed(c: Client) {
    SessionTheorems.Sound(c.s) && SessionTheorems.Ready(c.s) && c.held == None
  }

  ghost predicate FreshlyOpened(p: Pooled, cfg: PoolConfig, times: seq<int>) {
    && Initial(p.pool, cfg, times)
    && (forall c :: c in p.sessions <==> c < p.pool.nextConn)
    && (forall c :: c in p.sessions ==> Seed(p.sessions[c]))
  }

  ghost predicate IsPooledRun(cfg: PoolConfig, run: seq<Pooled>, events: seq<Event>) {
    && |run| == |events| + 1
    && (exists times :: FreshlyOpened(run[0], cfg, times))
    && forall i {:trigger events[i]} :: 0 <= i < |events| ==>
         Possible(run[i], cfg, events[i]) && run[i + 1] == Next(run[i], cfg, events[i])
  }

  // ------------------------------------------------------ sessions in a run

  /** A set-up that succeeds gives what a seed is. */
  lemma SetUpGivesSeed(c: Connecting)
    requires Greeted(c) && SetUpOf(c).0.Ok?
    ensures Seed(Runs.Client(SetUpOf(c).1, None))
  {
    hide Commands.SetUp;
    Runs.SetUpLeavesReadyOrClosed(c.greeted, c.setNames, c.autocommit, c.budget);
  }

  lemma SeedIsSound(c: Client)
    requires Seed(c)
    ensures Runs.ClientSound(c) && IsAlive(c.s)
  {}

  /** For a sound session being alive is being ready for a command. */
  lemma AliveIsReady(s: Wire.Session)
    requires SessionTheorems.Sound(s)
    ensures IsAlive(s) <==> SessionTheorems.Ready(s)
  {}

  /** Every connection has a session, and each session keeps the session invariant. */
  ghost predicate SessionsSound(p: Pooled) {
    && (forall c :: c < p.pool.nextConn ==> c in p.sessions)
    && (forall c :: c in p.sessions ==> Runs.ClientSound(p.sessions[c]))
  }

  lemma ActKeepsFields(w: World, t: Tid, until: Option<int>, isKeepalive: bool, decided: (Decision, Slot))
    ensures var w' := Act(w, t, until, isKeepalive, decided); w'.ready == w.ready && w'.nextConn == w.nextConn
  {}

  lemma LeavingKeepsFields(w: World, t: Tid, wakes: set<Tid>)
    ensures LeaveWait(w, t).ready == w.ready && LeaveWait(w, t).nextConn == w.nextConn
    ensures Wake(w, wakes).ready == w.ready && Wake(w, wakes).nextConn == w.nextConn
  {}

  /** Readiness and the number of connections opened, after each kind of step. */
  lemma FieldsOfStep(w: World, cfg: PoolConfig, step: Step)
    requires Enabled(w, cfg, step)
    ensures Apply(w, cfg, step).nextConn == w.nextConn + if step.ConnectSucceeds? then 1 else 0
    ensures Apply(w, cfg, step).ready
         == match step
            case ConnectSucceeds => w.ready + {w.nextConn}
            case UseLease(i, stillReady) =>
              if stillReady then w.ready + {w.leases[i].conn} else w.ready - {w.leases[i].conn}
            case CloseConn(i) => w.ready - {w.doomed[i]}
            case _ => w.ready
  {
    hide Act, Decide, LeaveWait, Recycle, Reap, Drain, Rollback, Conns;
    match step {
      case Acquire(t, until) =>
        ActKeepsFields(w, t, until, false, Decide(w.slot, cfg.maxConns, false, until.Some? && until.value <= w.nowMs));
      case Resume(t) =>
        LeavingKeepsFields(w, t, {});
        ActKeepsFields(LeaveWait(w, t), t, if t in w.deadline then w.deadline[t] else None, false,
                       Decide(LeaveWait(w, t).slot, cfg.maxConns, false, Expired(w, t)));
      case WaitFails(t, _) => LeavingKeepsFields(w, t, {});
      case KeepaliveAcquire =>
        ActKeepsFields(w, 0, None, true, Decide(w.slot, cfg.maxConns, true, false));
      case _ =>
    }
  }

  lemma SessionsSoundKept(p: Pooled, cfg: PoolConfig, ev: Event)
    requires SessionsSound(p) && Possible(p, cfg, ev)
    ensures SessionsSound(Next(p, cfg, ev))
  {
    hide Apply, Enabled, SetUpOf, Runs.Run, Runs.Perform, Runs.ClientSound, Seed;
    FieldsOfStep(View(p), cfg, StepOf(p, ev));
    match ev {
      case Opened(connecting) =>
        SetUpGivesSeed(connecting);
        SeedIsSound(Runs.Client(SetUpOf(connecting).1, None));
      case Used(i, calls) => Runs.RunSound(p.sessions[HolderOf(p, i)], calls);
      case PoolStep(CloseConn(i)) =>
        if i < |p.pool.doomed| && p.pool.doomed[i] in p.sessions {
          Runs.PerformSound(p.sessions[p.pool.doomed[i]], Runs.CallClose);
        }
      case PoolStep(_) =>
    }
  }

  // ------------------------------------------------------ the pool's view of them

  lemma ClosedIsNotAlive(c: Client)
    requires Runs.ClientSound(c)
    ensures !IsAlive(Runs.Perform(c, Runs.CallClose).s)
  {
    hide Commands.Close;
    Runs.CloseSound(c.s);
  }

  /** What the pool records about readiness is what the sessions say. */
  lemma ViewsAgree(p: Pooled, cfg: PoolConfig, ev: Event)
    requires SessionsSound(p) && Possible(p, cfg, ev)
    requires forall c :: c in p.pool.doomed ==> c < p.pool.nextConn
    ensures View(Next(p, cfg, ev)) == Apply(View(p), cfg, StepOf(p, ev))
  {
    hide Apply, Enabled, SetUpOf, Runs.Run, Runs.Perform, Runs.ClientSound, Seed, IsAlive;
    var step := StepOf(p, ev);
    FieldsOfStep(View(p), cfg, step);
    match ev {
      case Opened(connecting) =>
        SetUpGivesSeed(connecting);
        SeedIsSound(Runs.Client(SetUpOf(connecting).1, None));
        AliveAfterUpdate(p.sessions, p.pool.nextConn, Runs.Client(SetUpOf(connecting).1, None));
      case Used(i, calls) =>
        AliveAfterUpdate(p.sessions, HolderOf(p, i), Runs.Run(p.sessions[HolderOf(p, i)], calls));
      case PoolStep(CloseConn(i)) =>
        DoomedIndex(View(p), cfg, i);
        var c := p.pool.doomed[i];
        assert c in p.pool.doomed;
        ClosedIsNotAlive(p.sessions[c]);
        AliveAfterUpdate(p.sessions, c, Runs.Perform(p.sessions[c], Runs.CallClose));
      case PoolStep(_) =>
    }
  }

  lemma DoomedIndex(w: World, cfg: PoolConfig, i: nat)
    requires Enabled(w, cfg, CloseConn(i))
    ensures i < |w.doomed|
  {}

  lemma AliveAfterUpdate(sessions: map<Conn, Client>, c: Conn, client: Client)
    ensures Alive(sessions[c := client])
         == if IsAlive(client.s) then Alive(sessions) + {c} else Alive(sessions) - {c}
  {
    hide IsAlive;
  }

  // ------------------------------------------------------ refinement

  ghost function Worlds(run: seq<Pooled>): seq<World> {
    seq(|run|, i requires 0 <= i < |run| => View(run[i]))
  }

  ghost function Steps(cfg: PoolConfig, run: seq<Pooled>, events: seq<Event>): seq<Step>
    requires IsPooledRun(cfg, run, events)
  {
    seq(|events|, i requires 0 <= i < |events| => StepOf(run[i], events[i]))
  }

  lemma FreshViewIsInitial(p: Pooled, cfg: PoolConfig, times: seq<int>)
    requires FreshlyOpened(p, cfg, times)
    ensures View(p) == p.pool && SessionsSound(p)
  {
    hide Runs.ClientSound;
    forall c | c in p.sessions
      ensures Runs.ClientSound(p.sessions[c]) && IsAlive(p.sessions[c].s)
    {
      SeedIsSound(p.sessions[c]);
    }
    SeededConns(times);
    assert Alive(p.sessions) == p.pool.ready;
  }

  lemma SeededConns(times: seq<int>)
    ensures forall c: Conn :: c in Conns(Seeded(times).available) <==> c < |times|
  {
    forall c: Conn | c < |times|
      ensures c in Conns(Seeded(times).available)
    {
      assert Conns(Seeded(times).available)[c] == c;
    }
  }

  ghost predicate Sane(p: Pooled, cfg: PoolConfig) {
    SessionsSound(p) && Inv(View(p), cfg)
  }

  lemma DoomedWereOpened(w: World, cfg: PoolConfig)
    requires Inv(w, cfg)
    ensures forall c :: c in w.doomed ==> c < w.nextConn
  {
    forall c | c in w.doomed
      ensures c < w.nextConn
    {
      assert multiset(w.doomed)[c] >= 1;
      assert Owners(w, c) >= 1;
    }
  }

  lemma {:induction false} PooledRunIsSane(cfg: PoolConfig, run: seq<Pooled>, events: seq<Event>, k: nat)
    requires IsPooledRun(cfg, run, events) && k < |run|
    ensures Sane(run[k], cfg) && cfg.Valid()
  {
    hide Sane, IsPooledRun, Possible, Next, View;
    if k == 0 {
      PooledRunStartsSane(cfg, run, events);
    } else {
      PooledRunStep(cfg, run, events, k - 1);
      PooledRunIsSane(cfg, run, events, k - 1);
      SaneKept(run[k - 1], cfg, events[k - 1]);
    }
  }

  lemma PooledRunStartsSane(cfg: PoolConfig, run: seq<Pooled>, events: seq<Event>)
    requires IsPooledRun(cfg, run, events)
    ensures Sane(run[0], cfg) && cfg.Valid()
    ensures exists times :: Initial(View(run[0]), cfg, times)
  {
    hide Inv, SessionsSound, Possible, Next;
    var times :| FreshlyOpened(run[0], cfg, times);
    FreshViewIsInitial(run[0], cfg, times);
    InitialHolds(run[0].pool, cfg, times);
  }

  lemma PooledRunStep(cfg: PoolConfig, run: seq<Pooled>, events: seq<Event>, i: nat)
    requires IsPooledRun(cfg, run, events) && i + 1 < |run|
    ensures |run| == |events| + 1 && Possible(run[i], cfg, events[i]) && run[i + 1] == Next(run[i], cfg, events[i])
  {
    hide Possible, Next, FreshlyOpened;
  }

  lemma SaneKept(p: Pooled, cfg: PoolConfig, ev: Event)
    requires Sane(p, cfg) && cfg.Valid() && Possible(p, cfg, ev)
    ensures Sane(Next(p, cfg, ev), cfg) && View(Next(p, cfg, ev)) == Apply(View(p), cfg, StepOf(p, ev))
  {
    hide Apply, Enabled, Inv, SessionsSound;
    DoomedWereOpened(View(p), cfg);
    SessionsSoundKept(p, cfg, ev);
    ViewsAgree(p, cfg, ev);
    StepKeepsInv(View(p), cfg, StepOf(p, ev));
  }

  /**
   With sessions in it, a run is still a run of the pool: every theorem about pool runs
   holds, with readiness meaning that the session's flags say so.
   */
  lemma PooledRunIsAPoolRun(cfg: PoolConfig, run: seq<Pooled>, events: seq<Event>)
    requires IsPooledRun(cfg, run, events)
    ensures IsRun(cfg, Worlds(run), Steps(cfg, run, events))
  {
    hide Apply, Enabled, Sane, Initial, Possible, Next, View, StepOf;
    PooledRunStartsSane(cfg, run, events);
    var times :| Initial(View(run[0]), cfg, times);
    assert Initial(Worlds(run)[0], cfg, times);
    var steps := Steps(cfg, run, events);
    forall i | 0 <= i < |steps|
      ensures Enabled(Worlds(run)[i], cfg, steps[i]) && Worlds(run)[i + 1] == Apply(Worlds(run)[i], cfg, steps[i])
    {
      PooledRunStep(cfg, run, events, i);
      PooledRunIsSane(cfg, run, events, i);
      SaneKept(run[i], cfg, events[i]);
      PossibleIsEnabled(run[i], cfg, events[i]);
    }
  }

  lemma PossibleIsEnabled(p: Pooled, cfg: PoolConfig, ev: Event)
    requires Possible(p, cfg, ev)
    ensures Enabled(View(p), cfg, StepOf(p, ev))
  {
    hide Enabled, View;
  }

  // ------------------------------------------------------ every lease is usable

  ghost predicate Usable(p: Pooled, c: Conn) {
    c in p.sessions && SessionTheorems.Ready(p.sessions[c].s)
  }

  lemma ReadyMeansUsable(p: Pooled, c: Conn)
    requires SessionsSound(p) && c in View(p).ready
    ensures Usable(p, c)
  {
    AliveIsReady(p.sessions[c].s);
  }

  /**
   In every run, whatever the holders of leases do with them and whatever packets come: the
   session of each idle connection, and of each one about to be handed out, is ready for a
   command.
   */
  lemma IdleIsUsable(cfg: PoolConfig, run: seq<Pooled>, events: seq<Event>, k: nat)
    requires IsPooledRun(cfg, run, events) && k < |run|
    ensures forall e :: e in run[k].pool.slot.available ==> Usable(run[k], e.conn)
    ensures forall c :: c in run[k].pool.connected ==> Usable(run[k], c)
  {
    hide Usable, SessionsSound;
    PooledRunIsSane(cfg, run, events, k);
    forall e | e in run[k].pool.slot.available
      ensures Usable(run[k], e.conn)
    {
      ReadyMeansUsable(run[k], e.conn);
    }
    forall c | c in run[k].pool.connected
      ensures Usable(run[k], c)
    {
      ReadyMeansUsable(run[k], c);
    }
  }

  /** Each lease is usable when it is handed out. */
  lemma EveryLeaseIsUsable(cfg: PoolConfig, run: seq<Pooled>, events: seq<Event>, k: nat, l: Lease)
    requires IsPooledRun(cfg, run, events) && k < |events|
    requires l in run[k + 1].pool.leases && l !in run[k].pool.leases
    ensures Usable(run[k], l.conn) && Usable(run[k + 1], l.conn)
  {
    hide Apply, Enabled, Inv, SessionsSound, Usable;
    PooledRunIsSane(cfg, run, events, k);
    PooledRunIsSane(cfg, run, events, k + 1);
    SaneKept(run[k], cfg, events[k]);
    assert run[k + 1] == Next(run[k], cfg, events[k]);
    var (w, step) := (View(run[k]), StepOf(run[k], events[k]));
    HandedOutIsReady(w, cfg, step, l);
    HandingOutKeepsReady(w, cfg, step, l);
    ReadyMeansUsable(run[k], l.conn);
    ReadyMeansUsable(run[k + 1], l.conn);
  }

  lemma HandingOutKeepsReady(w: World, cfg: PoolConfig, step: Step, l: Lease)
    requires Inv(w, cfg) && Enabled(w, cfg, step)
    requires l in Apply(w, cfg, step).leases && l !in w.leases
    ensures Apply(w, cfg, step).ready == w.ready
  {
    FieldsOfStep(w, cfg, step);
  }

  /**
   In every run a returned connection stays in the pool if and only if its session is alive at
   that moment and the pool is open. It is then idle, and its session ready for a command;
   otherwise it is on its way to being closed. A keepalive ping that succeeded loses nothing.
   */
  lemma ReturnKeepsLiveSessions(cfg: PoolConfig, run: seq<Pooled>, events: seq<Event>, k: nat, i: nat, wakes: set<Tid>)
    requires IsPooledRun(cfg, run, events) && k < |events| && events[k] == PoolStep(ReleaseLease(i, wakes))
    ensures i < |run[k].pool.leases|
    ensures var c := run[k].pool.leases[i].conn;
            && c in run[k].sessions && run[k + 1].sessions == run[k].sessions
            && if IsAlive(run[k].sessions[c].s) && !run[k].pool.slot.closed then
                 && PoolFates.Idle(run[k + 1].pool, c) && Usable(run[k + 1], c)
                 && run[k + 1].pool.doomed == run[k].pool.doomed
               else
                 && !PoolFates.Idle(run[k + 1].pool, c)
                 && run[k + 1].pool.doomed == run[k].pool.doomed + [c]
  {
    hide Apply, Enabled, Inv, SessionsSound, Usable, IsAlive;
    PooledRunIsSane(cfg, run, events, k);
    PooledRunIsSane(cfg, run, events, k + 1);
    SaneKept(run[k], cfg, events[k]);
    var (w, w') := (View(run[k]), View(run[k + 1]));
    PoolFates.LeasedAt(w, cfg, i, wakes);
    PoolFates.ReturnIsKeptExactlyWhenReady(w, cfg, i, wakes);
    FieldsOfStep(w, cfg, ReleaseLease(i, wakes));
    LeasedHasSession(run[k], cfg, i);
    var c := w.leases[i].conn;
    if c in w.ready && !w.slot.closed {
      var e :| PoolFates.Requeued(w, w.leases[i], e) && w'.slot.available == w.slot.available + [e];
      assert e in w'.slot.available;
      ReadyMeansUsable(run[k + 1], c);
    }
  }

  lemma LeasedHasSession(p: Pooled, cfg: PoolConfig, i: nat)
    requires SessionsSound(p) && Inv(View(p), cfg) && i < |p.pool.leases|
    ensures HolderOf(p, i) in p.sessions && !PoolFates.Idle(View(p), HolderOf(p, i))
  {
    var w := View(p);
    LeasedIsNotElsewhere(w, i);
    LeaseConnsWithout(w.leases, i);
    assert Owners(w, HolderOf(p, i)) >= 1;
  }
}
