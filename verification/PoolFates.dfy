/**
 What becomes of a connection: exactly which steps hand one out for closing, which make one
 idle, and which take a reservation. Each is a property of the pool's steps as a whole.
 */
module PoolFates {
  import opened Basics
  import opened PoolSlots
  import opened PoolWorlds

  /** `c` is the connection of an idle entry with one of these tokens. */
  ghost predicate Reported(w: World, c: Conn, tokens: seq<nat>) {
    exists e :: e in w.slot.available && e.conn == c && e.watchToken in tokens
  }

  ghost predicate Idle(w: World, c: Conn) {
    exists e :: e in w.slot.available && e.conn == c
  }

  /** The reasons for closing a connection; what else happens closes none. */
  ghost predicate HasReason(w: World, cfg: PoolConfig, step: Step, c: Conn)
    requires Enabled(w, cfg, step)
  {
    match step
    // an open that finished too late
    case OpenCheck(i) => w.connected[i] == c && w.slot.closed
    // a return of a dead connection, or to a closed pool
    case ReleaseLease(i, _) => w.leases[i].conn == c && (c !in w.ready || w.slot.closed)
    // the watcher saw the idle connection's socket become readable
    case RecycleIdles(tokens, _) => Reported(w, c, tokens)
    // aged, as are all in front of it, and enough stay behind
    case ReapIdles =>
      exists i :: 0 <= i < |w.slot.available| && w.slot.available[i].conn == c
                  && ReapableRun(w.slot.available, w.slot.totalCount, cfg, w.nowMs, i + 1)
    case DrainPool => Idle(w, c)
    case _ => false
  }

  lemma ConnsMembers(es: seq<Entry>, c: Conn)
    ensures c in Conns(es) <==> exists e :: e in es && e.conn == c
  {
    if c in Conns(es) {
      var i :| 0 <= i < |es| && Conns(es)[i] == c;
      assert es[i] in es;
    }
    if e :| e in es && e.conn == c {
      var i :| 0 <= i < |es| && es[i] == e;
      assert Conns(es)[i] == c;
    }
  }

  lemma ActDoomsNone(w: World, t: Tid, until: Option<int>, isKeepalive: bool, decided: (Decision, Slot))
    ensures Act(w, t, until, isKeepalive, decided).doomed == w.doomed
  {}

  predicate ClosingStep(step: Step) {
    step.OpenCheck? || step.ReleaseLease? || step.RecycleIdles? || step.ReapIdles? || step.DrainPool?
    || step.CloseConn?
  }

  lemma OtherStepsDoomNone(w: World, cfg: PoolConfig, step: Step)
    requires Enabled(w, cfg, step) && !ClosingStep(step)
    ensures Apply(w, cfg, step).doomed == w.doomed
  {
    hide Act, Decide, Enabled, Reap, ReapCount, Recycle, Taken, Kept, Conns, Rollback, Drain, Release;
    match step {
      case Acquire(t, until) =>
        ActDoomsNone(w, t, until, false, Decide(w.slot, cfg.maxConns, false, until.Some? && until.value <= w.nowMs));
      case Resume(t) =>
        var w' := LeaveWait(w, t);
        ActDoomsNone(w', t, if t in w.deadline then w.deadline[t] else None, false,
                     Decide(w'.slot, cfg.maxConns, false, Expired(w, t)));
      case KeepaliveAcquire => ActDoomsNone(w, 0, None, true, Decide(w.slot, cfg.maxConns, true, false));
      case _ =>
    }
  }

  lemma RecycleDooms(w: World, cfg: PoolConfig, tokens: seq<nat>, wakes: set<Tid>, c: Conn)
    requires Enabled(w, cfg, RecycleIdles(tokens, wakes)) && c !in w.doomed
    ensures c in Apply(w, cfg, RecycleIdles(tokens, wakes)).doomed <==> Reported(w, c, tokens)
  {
    hide WakesOf, Recycle;
    var es := w.slot.available;
    ConnsMembers(Taken(es, tokens), c);
    forall e
      ensures e in Taken(es, tokens) <==> e in es && e.watchToken in tokens
    {
      KeptTakenMembers(es, tokens, e);
    }
  }

  lemma ReapDooms(w: World, cfg: PoolConfig, c: Conn)
    requires c !in w.doomed
    ensures c in Apply(w, cfg, ReapIdles).doomed <==> HasReason(w, cfg, ReapIdles, c)
  {
    var es := w.slot.available;
    var k := ReapCount(es, w.slot.totalCount, cfg, w.nowMs);
    assert Apply(w, cfg, ReapIdles).doomed == w.doomed + Conns(es[..k]);
    if c in Conns(es[..k]) {
      var i :| 0 <= i < k && Conns(es[..k])[i] == c;
      ReapTakesTheLongestRun(es, w.slot.totalCount, cfg, w.nowMs, k);
      assert ReapableRun(es, w.slot.totalCount, cfg, w.nowMs, i + 1);
    }
    if i :| 0 <= i < |es| && es[i].conn == c && ReapableRun(es, w.slot.totalCount, cfg, w.nowMs, i + 1) {
      ReapTakesTheLongestRun(es, w.slot.totalCount, cfg, w.nowMs, i + 1);
      assert Conns(es[..k])[i] == c;
    }
  }

  lemma DrainDooms(w: World, cfg: PoolConfig, c: Conn)
    requires Enabled(w, cfg, DrainPool) && c !in w.doomed
    ensures c in Apply(w, cfg, DrainPool).doomed <==> Idle(w, c)
  {
    ConnsMembers(w.slot.available, c);
  }

  lemma ReleaseDooms(w: World, cfg: PoolConfig, i: nat, wakes: set<Tid>, c: Conn)
    requires Enabled(w, cfg, ReleaseLease(i, wakes)) && c !in w.doomed
    ensures c in Apply(w, cfg, ReleaseLease(i, wakes)).doomed
       <==> w.leases[i].conn == c && (c !in w.ready || w.slot.closed)
  {
    hide WakesOf;
  }

  /** A connection is handed out for closing for these reasons and no others. */
  lemma ClosedForAReason(w: World, cfg: PoolConfig, step: Step, c: Conn)
    requires Enabled(w, cfg, step) && c !in w.doomed
    ensures c in Apply(w, cfg, step).doomed <==> HasReason(w, cfg, step, c)
  {
    hide Apply, Enabled;
    match step {
      case OpenCheck(i) => OpenCheckDooms(w, cfg, i, c);
      case ReleaseLease(i, wakes) => ReleaseDooms(w, cfg, i, wakes, c);
      case RecycleIdles(tokens, wakes) => RecycleDooms(w, cfg, tokens, wakes, c);
      case ReapIdles => ReapDooms(w, cfg, c);
      case DrainPool => DrainDooms(w, cfg, c);
      case CloseConn(i) => CloseConnDooms(w, cfg, i, c);
      case _ => OtherStepsDoomNone(w, cfg, step);
    }
  }

  lemma OpenCheckDooms(w: World, cfg: PoolConfig, i: nat, c: Conn)
    requires Enabled(w, cfg, OpenCheck(i)) && c !in w.doomed
    ensures c in Apply(w, cfg, OpenCheck(i)).doomed <==> w.connected[i] == c && w.slot.closed
  {}

  lemma CloseConnDooms(w: World, cfg: PoolConfig, i: nat, c: Conn)
    requires Enabled(w, cfg, CloseConn(i)) && c !in w.doomed
    ensures c !in Apply(w, cfg, CloseConn(i)).doomed
  {}

  // ------------------------------------------------------ returns

  /** The idle entry a returned lease becomes. */
  ghost predicate Requeued(w: World, l: Lease, e: Entry) {
    && e.conn == l.conn && e.lastUserReleaseMs == (if l.isKeepalive then l.preservedTs else w.nowMs)
    && forall f :: f in w.slot.available ==> f.watchToken < e.watchToken
  }

  /**
   A returned connection that is ready goes to the back of an open pool under a fresh token,
   with the time of a user's return or the time it had before the keepalive fiber took it;
   any other return is handed out for closing. Nothing else moves.
   */
  lemma ReturnIsKeptExactlyWhenReady(w: World, cfg: PoolConfig, i: nat, wakes: set<Tid>)
    requires Inv(w, cfg) && Enabled(w, cfg, ReleaseLease(i, wakes))
    ensures var (w', l) := (Apply(w, cfg, ReleaseLease(i, wakes)), w.leases[i]);
            && w'.leases == Without(w.leases, i)
            && if l.conn in w.ready && !w.slot.closed then
                 && w'.doomed == w.doomed && w'.slot.totalCount == w.slot.totalCount
                 && exists e :: Requeued(w, l, e) && w'.slot.available == w.slot.available + [e]
               else
                 && w'.doomed == w.doomed + [l.conn] && w'.slot.totalCount == w.slot.totalCount - 1
                 && w'.slot.available == w.slot.available
  {
    hide WakesOf, Counts, OneOwner, IdleAges, IdleIsReady, Phases;
    var l := w.leases[i];
    assert Requeued(w, l, Entry(l.conn, if l.isKeepalive then l.preservedTs else w.nowMs, w.slot.nextWatchToken + 1));
  }

  /** Nothing but such a return makes a connection idle. */
  lemma IdleByReturnOnly(w: World, cfg: PoolConfig, step: Step, c: Conn)
    requires Inv(w, cfg) && Enabled(w, cfg, step) && !Idle(w, c)
    ensures Idle(Apply(w, cfg, step), c)
       <==> step.ReleaseLease? && w.leases[step.i].conn == c && c in w.ready && !w.slot.closed
  {
    hide Inv;
    if step.ReleaseLease? {
      hide Apply, Enabled;
      ReturnIsKeptExactlyWhenReady(w, cfg, step.i, step.wakes);
      LeasedAt(w, cfg, step.i, step.wakes);
    } else {
      hide Apply, Enabled;
      OthersMakeNoneIdle(w, cfg, step);
    }
  }

  lemma LeasedAt(w: World, cfg: PoolConfig, i: nat, wakes: set<Tid>)
    requires Enabled(w, cfg, ReleaseLease(i, wakes))
    ensures i < |w.leases|
  {}

  lemma ActMakesNoneIdle(w: World, cfg: PoolConfig, t: Tid, until: Option<int>, isKeepalive: bool, expired: bool)
    ensures var w' := Act(w, t, until, isKeepalive, Decide(w.slot, cfg.maxConns, isKeepalive, expired));
            forall e :: e in w'.slot.available ==> e in w.slot.available
  {}

  lemma OthersMakeNoneIdle(w: World, cfg: PoolConfig, step: Step)
    requires Enabled(w, cfg, step) && !step.ReleaseLease?
    ensures forall e :: e in Apply(w, cfg, step).slot.available ==> e in w.slot.available
  {
    hide Act, Decide, Conns;
    match step {
      case Acquire(t, until) =>
        ActMakesNoneIdle(w, cfg, t, until, false, until.Some? && until.value <= w.nowMs);
      case Resume(t) =>
        ActMakesNoneIdle(LeaveWait(w, t), cfg, t, if t in w.deadline then w.deadline[t] else None, false,
                         Expired(w, t));
      case KeepaliveAcquire => ActMakesNoneIdle(w, cfg, 0, None, true, false);
      case RecycleIdles(tokens, _) =>
        forall e
          ensures e in Kept(w.slot.available, tokens) ==> e in w.slot.available
        {
          KeptTakenMembers(w.slot.available, tokens, e);
        }
      case _ =>
    }
  }

  // ------------------------------------------------------ reservations

  /** A keepalive tick takes the newest idle connection of an open pool or changes nothing;
      it never opens one and never waits. */
  lemma KeepaliveTakesOrLeaves(w: World, cfg: PoolConfig)
    ensures var (w', es) := (Apply(w, cfg, KeepaliveAcquire), w.slot.available);
            if w.slot.closed || es == [] then w' == w
            else
              var e := es[|es| - 1];
              w' == w.(slot := w.slot.(available := es[..|es| - 1], activeCount := w.slot.activeCount + 1),
                       leases := w.leases + [Lease(e.conn, e.lastUserReleaseMs, true)])
  {}

  /** Whether thread `t`'s budget, if it has one, has run out in a step of its own. */
  predicate OutOfTime(w: World, step: Step) {
    match step
    case Acquire(_, until) => until.Some? && until.value <= w.nowMs
    case Resume(t) => Expired(w, t)
    case _ => false
  }

  /** A connection is opened only for a user in time, in an open pool with nothing idle and
      room below the maximum. */
  lemma ReservesExactlyWhenNeeded(w: World, cfg: PoolConfig, step: Step)
    requires Enabled(w, cfg, step)
    ensures Apply(w, cfg, step).connecting > w.connecting
       <==> && (step.Acquire? || step.Resume?) && !OutOfTime(w, step)
            && !w.slot.closed && w.slot.available == [] && w.slot.totalCount < cfg.maxConns
  {
    hide WakesOf, Conns, Recycle, Reap, Drain, Release, Rollback;
  }
}
