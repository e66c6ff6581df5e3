/**
 The state behind the pool's mutex and the functions that run while holding it.

 `Slot` is the value of that state; the functions over it say what one critical
 section does. `PoolSlot` is the mutable object, and each of its methods is proved
 to perform exactly the critical section its function describes.
 */
module PoolSlots {
  import opened Basics

  /** A connection ever opened, identified by the order of opening. */
  type Conn = nat

  datatype Entry = Entry(conn: Conn, lastUserReleaseMs: int, watchToken: nat)

  datatype PoolConfig = PoolConfig(minIdle: int, maxConns: int, idleTimeoutMs: int) {
    predicate Valid() { 1 <= maxConns && 0 <= minIdle <= maxConns }
  }

  datatype PoolError =
    | PoolClosed | AcquireTimeout | PoolBusyKeepalive | PoolWaitFailed
    | InvalidMaxConns | InvalidMinIdle | SeedFailed

  /** What one pass of the acquire loop decides; `MustWait` parks on the condition variable. */
  datatype Decision = GotConn(conn: Conn, ts: int) | ShouldOpen | WasError(error: PoolError) | MustWait

  datatype Slot = Slot(
    available: seq<Entry>,
    closed: bool,
    activeCount: int,
    totalCount: int,
    waiters: int,
    nextWatchToken: nat)

  const EMPTY_SLOT := Slot([], false, 0, 0, 0, 0)

  // ---------------------------------------------------------------- entries

  function Conns(es: seq<Entry>): (cs: seq<Conn>)
    ensures |cs| == |es|
  {
    seq(|es|, i requires 0 <= i < |es| => es[i].conn)
  }

  lemma ConnsConcat(a: seq<Entry>, b: seq<Entry>)
    ensures Conns(a + b) == Conns(a) + Conns(b)
  {}

  /** Watch tokens grow from front to back, so they are distinct. */
  ghost predicate TokensIncrease(es: seq<Entry>) {
    forall i, j :: 0 <= i < j < |es| ==> es[i].watchToken < es[j].watchToken
  }

  function Kept(es: seq<Entry>, tokens: seq<nat>): seq<Entry> {
    if es == [] then []
    else if es[0].watchToken in tokens then Kept(es[1..], tokens)
    else [es[0]] + Kept(es[1..], tokens)
  }

  function Taken(es: seq<Entry>, tokens: seq<nat>): seq<Entry> {
    if es == [] then []
    else if es[0].watchToken in tokens then [es[0]] + Taken(es[1..], tokens)
    else Taken(es[1..], tokens)
  }

  /** Kept and taken entries split the input: nothing is lost or duplicated. */
  lemma {:induction false} KeptTakenSplit(es: seq<Entry>, tokens: seq<nat>)
    ensures |Kept(es, tokens)| + |Taken(es, tokens)| == |es|
    ensures multiset(Conns(Kept(es, tokens))) + multiset(Conns(Taken(es, tokens))) == multiset(Conns(es))
  {
    if es != [] {
      var rest := es[1..];
      KeptTakenSplit(rest, tokens);
      assert Conns(es) == [es[0].conn] + Conns(rest);
      if es[0].watchToken in tokens {
        assert Conns(Taken(es, tokens)) == [es[0].conn] + Conns(Taken(rest, tokens));
      } else {
        assert Conns(Kept(es, tokens)) == [es[0].conn] + Conns(Kept(rest, tokens));
      }
    }
  }

  /** An entry goes to the side its token says, and no entry is invented. */
  lemma {:induction false} KeptTakenMembers(es: seq<Entry>, tokens: seq<nat>, e: Entry)
    ensures e in Kept(es, tokens) <==> e in es && e.watchToken !in tokens
    ensures e in Taken(es, tokens) <==> e in es && e.watchToken in tokens
  {
    if es != [] {
      KeptTakenMembers(es[1..], tokens, e);
      assert e in es <==> e == es[0] || e in es[1..];
    }
  }

  /** One step of the recycle loop: the front entry moves to the end of its side. */
  lemma RecycleStep(es: seq<Entry>, tokens: seq<nat>, kept: seq<Entry>, doomed: seq<Conn>)
    requires es != []
    ensures es[0].watchToken in tokens ==>
              && kept + Kept(es, tokens) == kept + Kept(es[1..], tokens)
              && doomed + Conns(Taken(es, tokens)) == doomed + [es[0].conn] + Conns(Taken(es[1..], tokens))
    ensures es[0].watchToken !in tokens ==>
              && kept + Kept(es, tokens) == kept + [es[0]] + Kept(es[1..], tokens)
              && doomed + Conns(Taken(es, tokens)) == doomed + Conns(Taken(es[1..], tokens))
  {
    if es[0].watchToken in tokens {
      ConnsConcat([es[0]], Taken(es[1..], tokens));
    }
  }

  lemma {:induction false} KeptKeepsOrder(es: seq<Entry>, tokens: seq<nat>)
    requires TokensIncrease(es)
    ensures TokensIncrease(Kept(es, tokens))
  {
    if es != [] {
      KeptKeepsOrder(es[1..], tokens);
      forall e | e in Kept(es[1..], tokens)
        ensures es[0].watchToken < e.watchToken
      {
        KeptTakenMembers(es[1..], tokens, e);
        var k :| 0 <= k < |es[1..]| && es[1..][k] == e;
        assert es[k + 1] == e;
      }
    }
  }

  /** How many entries idle-reap takes from the front. */
  function ReapCount(es: seq<Entry>, totalCount: int, cfg: PoolConfig, nowMs: int): (k: nat)
    ensures k <= |es|
  {
    if totalCount <= cfg.minIdle || es == [] || nowMs - es[0].lastUserReleaseMs < cfg.idleTimeoutMs then 0
    else 1 + ReapCount(es[1..], totalCount - 1, cfg, nowMs)
  }

  ghost predicate ReapableRun(es: seq<Entry>, totalCount: int, cfg: PoolConfig, nowMs: int, k: nat) {
    && k <= |es|
    && (forall i :: 0 <= i < k ==> nowMs - es[i].lastUserReleaseMs >= cfg.idleTimeoutMs)
    && (k > 0 ==> totalCount - k >= cfg.minIdle)
  }

  /** Reaping takes exactly the longest run of aged entries at the front that leaves
      `totalCount` at or above `minIdle`. */
  lemma {:induction false} ReapTakesTheLongestRun(
    es: seq<Entry>, totalCount: int, cfg: PoolConfig, nowMs: int, k: nat)
    ensures ReapableRun(es, totalCount, cfg, nowMs, ReapCount(es, totalCount, cfg, nowMs))
    ensures ReapableRun(es, totalCount, cfg, nowMs, k) ==> k <= ReapCount(es, totalCount, cfg, nowMs)
  {
    var n := ReapCount(es, totalCount, cfg, nowMs);
    if n > 0 {
      ReapTakesTheLongestRun(es[1..], totalCount - 1, cfg, nowMs, if k > 0 then k - 1 else 0);
      assert forall i :: 1 <= i < n ==> es[i] == es[1..][i - 1];
    }
  }

  // ------------------------------------------------------ critical sections

  function Decide(s: Slot, maxConns: int, isKeepalive: bool, expired: bool): (Decision, Slot) {
    if s.closed then (WasError(PoolClosed), s)
    else if !isKeepalive && expired then (WasError(AcquireTimeout), s)
    else if s.available != [] then
      var e := s.available[|s.available| - 1];
      (GotConn(e.conn, e.lastUserReleaseMs),
       s.(available := s.available[..|s.available| - 1], activeCount := s.activeCount + 1))
    else if s.totalCount < maxConns && !isKeepalive then
      (ShouldOpen, s.(activeCount := s.activeCount + 1, totalCount := s.totalCount + 1))
    else if isKeepalive then (WasError(PoolBusyKeepalive), s)
    else (MustWait, s.(waiters := s.waiters + 1))
  }

  function Rollback(s: Slot): Slot {
    s.(activeCount := s.activeCount - 1, totalCount := s.totalCount - 1)
  }

  function Release(s: Slot, conn: Conn, healthy: bool, isKeepalive: bool, preservedTs: int, nowMs: int)
    : (Option<Conn>, Slot)
  {
    if !healthy || s.closed then
      (Some(conn), s.(activeCount := s.activeCount - 1, totalCount := s.totalCount - 1))
    else
      var e := Entry(conn, if isKeepalive then preservedTs else nowMs, s.nextWatchToken + 1);
      (None, s.(activeCount := s.activeCount - 1, available := s.available + [e],
                nextWatchToken := s.nextWatchToken + 1))
  }

  function Recycle(s: Slot, tokens: seq<nat>): Slot {
    s.(available := Kept(s.available, tokens), totalCount := s.totalCount - |Taken(s.available, tokens)|)
  }

  function Reap(s: Slot, cfg: PoolConfig, nowMs: int): Slot {
    var k := ReapCount(s.available, s.totalCount, cfg, nowMs);
    s.(available := s.available[k..], totalCount := s.totalCount - k)
  }

  function Drain(s: Slot): Slot {
    s.(closed := true, available := [], totalCount := s.totalCount - |s.available|)
  }

  // ------------------------------------------------------ the mutable object

  /** Why `wait`/`wait_timeout` came back without a wake-up. */
  datatype WaitError = WaitClosed | WaitTimeout | WaitOther

  function WaitErrorTag(e: WaitError): PoolError {
    match e
    case WaitClosed => PoolClosed
    case WaitTimeout => AcquireTimeout
    case WaitOther => PoolWaitFailed
  }

  /** `signals` counts the `signal_one` calls a critical section makes. */
  class PoolSlot {
    var available: seq<Entry>
    var closed: bool
    var activeCount: int
    var totalCount: int
    var waiters: int
    var nextWatchToken: nat
    var signals: nat

    ghost function View(): Slot
      reads this
    {
      Slot(available, closed, activeCount, totalCount, waiters, nextWatchToken)
    }

    constructor ()
      ensures View() == EMPTY_SLOT && signals == 0
    {
      available, closed, activeCount, totalCount := [], false, 0, 0;
      waiters, nextWatchToken, signals := 0, 0, 0;
    }

    method SignalOne()
      modifies this`signals
      ensures signals == old(signals) + 1
    {
      signals := signals + 1;
    }

    method MintToken() returns (token: nat)
      modifies this`nextWatchToken
      ensures token == nextWatchToken == old(nextWatchToken) + 1
    {
      nextWatchToken := nextWatchToken + 1;
      token := nextWatchToken;
    }

    /** One pass of the acquire loop, from holding the lock to leaving or parking. Only users
        time out, wait and reserve; the keepalive fiber takes what is idle or goes away. */
    method AcquireDecide(maxConns: int, isKeepalive: bool, expired: bool) returns (d: Decision)
      modifies this
      ensures (d, View()) == Decide(old(View()), maxConns, isKeepalive, expired)
      ensures signals == old(signals)
      ensures d == WasError(PoolClosed) <==> old(closed)
      ensures d == WasError(AcquireTimeout) <==> !old(closed) && !isKeepalive && expired
      ensures d.GotConn? <==> !old(closed) && (isKeepalive || !expired) && old(available) != []
      ensures d == WasError(PoolBusyKeepalive) <==> !old(closed) && isKeepalive && old(available) == []
      ensures d == ShouldOpen
         <==> !old(closed) && !isKeepalive && !expired && old(available) == [] && old(totalCount) < maxConns
      ensures d == MustWait
         <==> !old(closed) && !isKeepalive && !expired && old(available) == [] && old(totalCount) >= maxConns
      ensures d.GotConn? ==> exists e ::
                old(available) == available + [e] && d.conn == e.conn && d.ts == e.lastUserReleaseMs
      ensures !d.GotConn? ==> available == old(available)
      ensures activeCount == old(activeCount) + if d.GotConn? || d == ShouldOpen then 1 else 0
      ensures totalCount == old(totalCount) + if d == ShouldOpen then 1 else 0
      ensures waiters == old(waiters) + if d == MustWait then 1 else 0
      ensures closed == old(closed) && nextWatchToken == old(nextWatchToken)
    {
      if closed {
        return WasError(PoolClosed);
      }
      if !isKeepalive && expired {
        return WasError(AcquireTimeout);
      }
      if |available| > 0 {
        var e := available[|available| - 1];
        assert available == available[..|available| - 1] + [e];
        available := available[..|available| - 1];
        activeCount := activeCount + 1;
        d := GotConn(e.conn, e.lastUserReleaseMs);
      } else if totalCount < maxConns && !isKeepalive {
        activeCount := activeCount + 1;
        totalCount := totalCount + 1;
        d := ShouldOpen;
      } else if isKeepalive {
        d := WasError(PoolBusyKeepalive);
      } else {
        waiters := waiters + 1;
        d := MustWait;
      }
    }

    /** The section that runs when a waiter has the lock again: a failed wait leaves,
        a wake-up goes round the loop once more. */
    method AfterWait(failure: Option<WaitError>, maxConns: int, expired: bool) returns (d: Decision)
      modifies this
      ensures failure == Some(WaitClosed) ==> d == WasError(PoolClosed)
      ensures failure == Some(WaitTimeout) ==> d == WasError(AcquireTimeout)
      ensures failure == Some(WaitOther) ==> d == WasError(PoolWaitFailed)
      ensures failure.Some? ==> View() == old(View()).(waiters := old(waiters) - 1)
      ensures failure.None? ==>
                (d, View()) == Decide(old(View()).(waiters := old(waiters) - 1), maxConns, false, expired)
      ensures signals == old(signals)
    {
      waiters := waiters - 1;
      match failure {
        case Some(e) => d := WasError(WaitErrorTag(e));
        case None => d := AcquireDecide(maxConns, false, expired);
      }
    }

    method MarkPoolClosed()
      modifies this`closed
      ensures View() == old(View()).(closed := true)
    {
      closed := true;
    }

    method RollbackReservation() returns (wasClosed: bool)
      modifies this
      ensures wasClosed == old(closed) && View() == Rollback(old(View()))
      ensures signals == old(signals) + 1
    {
      activeCount := activeCount - 1;
      totalCount := totalCount - 1;
      wasClosed := closed;
      SignalOne();
    }

    method OpenRacedClose() returns (raced: bool)
      modifies this
      ensures raced == old(closed)
      ensures View() == if raced then Rollback(old(View())) else old(View())
      ensures signals == old(signals)
    {
      raced := closed;
      if closed {
        activeCount := activeCount - 1;
        totalCount := totalCount - 1;
      }
    }

    method ReleaseDecide(conn: Conn, healthy: bool, isKeepalive: bool, preservedTs: int, nowMs: int)
      returns (toClose: Option<Conn>)
      modifies this
      ensures (toClose, View()) == Release(old(View()), conn, healthy, isKeepalive, preservedTs, nowMs)
      ensures signals == old(signals) + 1
      ensures toClose == if healthy && !old(closed) then None else Some(conn)
      ensures toClose.None? ==>
                && nextWatchToken == old(nextWatchToken) + 1 && totalCount == old(totalCount)
                && available == old(available)
                              + [Entry(conn, if isKeepalive then preservedTs else nowMs, nextWatchToken)]
      ensures toClose.Some? ==>
                && nextWatchToken == old(nextWatchToken) && totalCount == old(totalCount) - 1
                && available == old(available)
      ensures activeCount == old(activeCount) - 1 && closed == old(closed) && waiters == old(waiters)
    {
      activeCount := activeCount - 1;
      if !healthy || closed {
        totalCount := totalCount - 1;
        SignalOne();
        toClose := Some(conn);
      } else {
        var ts := preservedTs;
        if !isKeepalive {
          ts := nowMs;
        }
        var token := MintToken();
        available := available + [Entry(conn, ts, token)];
        SignalOne();
        toClose := None;
      }
    }

    /** The watch token of every idle entry, in order. */
    method SnapshotIdleEntries() returns (tokens: seq<nat>)
      ensures |tokens| == |available|
      ensures forall i :: 0 <= i < |tokens| ==> tokens[i] == available[i].watchToken
    {
      tokens := [];
      var i := 0;
      while i < |available|
        invariant 0 <= i <= |available| && |tokens| == i
        invariant forall j :: 0 <= j < i ==> tokens[j] == available[j].watchToken
      {
        tokens := tokens + [available[i].watchToken];
        i := i + 1;
      }
    }

    method RecycleReadyIdles(readyTokens: seq<nat>) returns (doomed: seq<Conn>)
      modifies this
      ensures View() == Recycle(old(View()), readyTokens)
      ensures doomed == Conns(Taken(old(available), readyTokens))
      ensures signals == old(signals) + |doomed|
    {
      doomed := [];
      var kept: seq<Entry> := [];
      ghost var was := available;
      while |available| > 0
        invariant kept + Kept(available, readyTokens) == Kept(was, readyTokens)
        invariant doomed + Conns(Taken(available, readyTokens)) == Conns(Taken(was, readyTokens))
        invariant totalCount == old(totalCount) - |doomed| && signals == old(signals) + |doomed|
        invariant closed == old(closed) && activeCount == old(activeCount)
        invariant waiters == old(waiters) && nextWatchToken == old(nextWatchToken)
        decreases |available|
      {
        RecycleStep(available, readyTokens, kept, doomed);
        var e := available[0];
        available := available[1..];
        if e.watchToken in readyTokens {
          doomed := doomed + [e.conn];
          totalCount := totalCount - 1;
          SignalOne();
        } else {
          kept := kept + [e];
        }
      }
      available := kept;
    }

    /** Returns each reaped connection with the total left after its removal. */
    method ReapAgedLocked(cfg: PoolConfig, nowMs: int) returns (doomed: seq<(Conn, int)>)
      modifies this
      ensures View() == Reap(old(View()), cfg, nowMs)
      ensures |doomed| == ReapCount(old(available), old(totalCount), cfg, nowMs)
      ensures forall i :: 0 <= i < |doomed| ==>
                doomed[i] == (old(available)[i].conn, old(totalCount) - i - 1)
      ensures signals == old(signals)
    {
      doomed := [];
      while totalCount > cfg.minIdle && |available| > 0
        invariant |doomed| <= |old(available)|
        invariant available == old(available)[|doomed|..]
        invariant totalCount == old(totalCount) - |doomed|
        invariant |doomed| + ReapCount(available, totalCount, cfg, nowMs)
               == ReapCount(old(available), old(totalCount), cfg, nowMs)
        invariant forall i :: 0 <= i < |doomed| ==>
                    doomed[i] == (old(available)[i].conn, old(totalCount) - i - 1)
        invariant View() == old(View()).(available := available, totalCount := totalCount)
        invariant signals == old(signals)
        decreases |available|
      {
        var e := available[0];
        if nowMs - e.lastUserReleaseMs < cfg.idleTimeoutMs {
          break;
        }
        available := available[1..];
        totalCount := totalCount - 1;
        doomed := doomed + [(e.conn, totalCount)];
      }
    }

    method DrainConnsLocked() returns (doomed: seq<Conn>)
      modifies this
      ensures View() == Drain(old(View())) && closed && available == []
      ensures multiset(doomed) == multiset(Conns(old(available)))
      ensures signals == old(signals)
    {
      doomed := [];
      closed := true;
      while |available| > 0
        invariant multiset(doomed) + multiset(Conns(available)) == multiset(Conns(old(available)))
        invariant totalCount - |available| == old(totalCount) - |old(available)|
        invariant View() == old(View()).(closed := true, available := available, totalCount := totalCount)
        invariant signals == old(signals)
        decreases |available|
      {
        var e := available[|available| - 1];
        ConnsConcat(available[..|available| - 1], [e]);
        assert available == available[..|available| - 1] + [e];
        available := available[..|available| - 1];
        doomed := doomed + [e.conn];
        totalCount := totalCount - 1;
      }
    }
  }

  // ------------------------------------------------------------ open()

  /** The slot after seeding one connection per element of `seedTimes`. */
  function Seeded(seedTimes: seq<int>): Slot {
    EMPTY_SLOT.(
      available := seq(|seedTimes|, i requires 0 <= i < |seedTimes| => Entry(i, seedTimes[i], i + 1)),
      totalCount := |seedTimes|,
      nextWatchToken := |seedTimes|)
  }

  /** `open`: check the configuration, then seed `minIdle` connections. `connects[i]` is the
      outcome of the i-th `rpc.connect`: the time it succeeded, or None for a failure. */
  method Open(cfg: PoolConfig, connects: seq<Option<int>>)
    returns (r: Result<PoolSlot, PoolError>, closedConns: seq<Conn>)
    requires |connects| >= cfg.minIdle
    ensures r == Err(InvalidMaxConns) <==> cfg.maxConns < 1
    ensures r == Err(InvalidMinIdle) <==> cfg.maxConns >= 1 && !cfg.Valid()
    ensures r == Err(SeedFailed) <==> cfg.Valid() && exists i :: 0 <= i < cfg.minIdle && connects[i].None?
    ensures r.Ok? ==>
              && cfg.Valid() && closedConns == []
              && fresh(r.value)
              && exists times ::
                   && |times| == cfg.minIdle
                   && (forall i :: 0 <= i < |times| ==> connects[i] == Some(times[i]))
                   && r.value.View() == Seeded(times)
    // a failed seed closes every connection seeded before it, each once
    ensures r == Err(SeedFailed) ==>
              exists n: nat ::
                && n < cfg.minIdle && connects[n].None?
                && (forall i :: 0 <= i < n ==> connects[i].Some?)
                && multiset(closedConns) == multiset(seq(n, i => i))
  {
    closedConns := [];
    if cfg.maxConns < 1 {
      return Err(InvalidMaxConns), [];
    }
    if cfg.minIdle < 0 || cfg.minIdle > cfg.maxConns {
      return Err(InvalidMinIdle), [];
    }
    var s := new PoolSlot();
    var seeded := 0;
    ghost var times: seq<int> := [];
    while seeded < cfg.minIdle
      invariant 0 <= seeded <= cfg.minIdle && |times| == seeded
      invariant forall i :: 0 <= i < seeded ==> connects[i] == Some(times[i])
      invariant fresh(s) && s.View() == Seeded(times)
    {
      match connects[seeded] {
        case None =>
          closedConns := s.DrainConnsLocked();
          assert Conns(Seeded(times).available) == seq(seeded, i => i);
          return Err(SeedFailed), closedConns;
        case Some(now) =>
          var token := s.MintToken();
          s.available := s.available + [Entry(seeded, now, token)];
          s.totalCount := s.totalCount + 1;
          times := times + [now];
      }
      seeded := seeded + 1;
    }
    return Ok(s), [];
  }
}
