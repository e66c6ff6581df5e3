/**
 One proxied connection: the client-to-server pump with its fire decision, and the two
 pumps as threads that share the flags `swallow` and `hold`. Each step of a thread may be
 followed by any step of the other thread or of the server.
 */
module ProxyPumps {
  import opened Basics
  import opened Failpoints
  import opened Framing
  import opened Sockets
  import opened Transport

  // ------------------------------------------------------ the fire decision

  /** A failpoint fired by the COMMIT that ends at `end`. */
  datatype Fire = Fire(end: nat, result: FireResult)

  /** The registry after `n` COMMITs of one client. */
  function AfterCommits(es: seq<Entry>, client: string, n: nat): seq<Entry>
    decreases n
  {
    if n == 0 then es else AfterCommits(AfterCommit(es, client), client, n - 1)
  }

  /** The first of the COMMITs ending at `ends` that fires something, if one does. */
  function FirstFire(es: seq<Entry>, client: string, ends: seq<nat>): Option<Fire>
    decreases |ends|
  {
    if ends == [] then None
    else match FiresNow(es, client)
      case Some(result) => Some(Fire(ends[0], result))
      case None => FirstFire(AfterCommit(es, client), client, ends[1..])
  }

  /** How many of them are observed: none behind the firing one. */
  function Observed(es: seq<Entry>, client: string, ends: seq<nat>): (n: nat)
    ensures n <= |ends|
    decreases |ends|
  {
    if ends == [] then 0
    else if FiresNow(es, client).Some? then 1
    else 1 + Observed(AfterCommit(es, client), client, ends[1..])
  }

  /** The firing COMMIT is the last one observed, and none before it fires anything. */
  lemma {:induction false} FireIsTheLastObserved(es: seq<Entry>, client: string, ends: seq<nat>)
    ensures var n := Observed(es, client, ends);
            match FirstFire(es, client, ends)
            case None => n == |ends| && forall k :: 0 <= k < n ==> FiresNow(AfterCommits(es, client, k), client).None?
            case Some(f) =>
              && n >= 1 && f.end == ends[n - 1]
              && FiresNow(AfterCommits(es, client, n - 1), client) == Some(f.result)
              && forall k :: 0 <= k < n - 1 ==> FiresNow(AfterCommits(es, client, k), client).None?
    decreases |ends|
  {
    if ends != [] && FiresNow(es, client).None? {
      var es' := AfterCommit(es, client);
      FireIsTheLastObserved(es', client, ends[1..]);
      var n := Observed(es', client, ends[1..]);
      forall k | 0 <= k <= n
        ensures AfterCommits(es, client, k + 1) == AfterCommits(es', client, k)
      {}
      assert forall k :: 0 < k <= n ==> AfterCommits(es, client, k) == AfterCommits(es', client, k - 1);
    }
  }

  method DecideFire(reg: Registry, client: string, ends: seq<nat>) returns (fire: Option<Fire>, commits: nat)
    modifies reg`entries
    ensures fire == FirstFire(old(reg.entries), client, ends)
    ensures commits == Observed(old(reg.entries), client, ends)
    ensures reg.entries == AfterCommits(old(reg.entries), client, commits)
  {
    fire, commits := None, 0;
    ghost var es := reg.entries;
    while commits < |ends| && fire.None?
      invariant commits <= |ends|
      invariant fire.None? ==> FirstFire(es, client, ends) == FirstFire(reg.entries, client, ends[commits..])
      invariant fire.None? ==> Observed(es, client, ends) == commits + Observed(reg.entries, client, ends[commits..])
      invariant fire.Some? ==> FirstFire(es, client, ends) == fire && Observed(es, client, ends) == commits
      invariant reg.entries == AfterCommits(es, client, commits)
    {
      AfterOneMore(es, client, commits);
      assert ends[commits..][1..] == ends[commits + 1..];
      var result := reg.ObserveCommit(client);
      if result.Some? {
        fire := Some(Fire(ends[commits], result.value));
      }
      commits := commits + 1;
    }
  }

  lemma {:induction false} AfterOneMore(es: seq<Entry>, client: string, n: nat)
    ensures AfterCommits(es, client, n + 1) == AfterCommit(AfterCommits(es, client, n), client)
    decreases n
  {
    if n > 0 {
      AfterOneMore(AfterCommit(es, client), client, n - 1);
    }
  }

  // ------------------------------------------------------ the client-to-server pump

  /** Writing until all of `bytes` is out: a call that would block is tried again, any other
      failure ends it. */
  function PushOut(s: Stream, bytes: seq<byte>): (r: (bool, Stream))
    ensures r.1 == s.(accepted := r.1.accepted, writeAt := r.1.writeAt)
    ensures s.accepted <= r.1.accepted <= s.accepted + bytes
    ensures r.0 <==> r.1.accepted == s.accepted + bytes
    decreases |s.takes| - s.writeAt
  {
    if bytes == [] then (true, s)
    else match WriteSome(s, bytes)
      case (Failed(again), t) => if again then PushOut(t, bytes) else (false, t)
      case (Moved(k), t) =>
        if k == 0 then (false, t)
        else
          assert s.accepted + bytes == t.accepted + bytes[k..];
          PushOut(t, bytes[k..])
  }

  /** However often the peer is not ready, all goes out once it keeps taking. */
  lemma {:induction false} PushOutSucceeds(s: Stream, bytes: seq<byte>, j: nat)
    requires s.isOpen && s.writeAt <= j && j + |bytes| <= |s.takes|
    requires forall k :: s.writeAt <= k < j ==> s.takes[k].Block?
    requires forall k :: j <= k < |s.takes| ==> s.takes[k].Give? && s.takes[k].max > 0
    ensures PushOut(s, bytes).0
    decreases |s.takes| - s.writeAt
  {
    if bytes != [] {
      var (moved, t) := WriteSome(s, bytes);
      if moved.Failed? {
        PushOutSucceeds(t, bytes, j);
      } else {
        PushOutSucceeds(t, bytes[moved.count..], j + 1);
      }
    }
  }

  /** Behind any number of calls that would block, one that takes nothing or fails ends it. */
  lemma {:induction false} PushOutStops(s: Stream, bytes: seq<byte>, j: nat)
    requires s.isOpen && s.writeAt <= j && bytes != []
    requires forall k :: s.writeAt <= k < j ==> StepAt(s.takes, k).Block?
    requires StepAt(s.takes, j) == Give(0) || StepAt(s.takes, j) == Refuse
    ensures PushOut(s, bytes) == (false, s.(writeAt := j + 1))
    decreases j - s.writeAt
  {
    if s.writeAt < j {
      assert StepAt(s.takes, s.writeAt).Block?;
      var t := s.(writeAt := s.writeAt + 1);
      assert WriteSome(s, bytes) == (Failed(true), t);
      PushOutStops(t, bytes, j);
    } else {
      assert s.accepted + bytes[..0] == s.accepted;
    }
  }

  method ForwardAll(dst: TcpStream, bytes: seq<byte>, n: nat) returns (ok: bool)
    requires n <= |bytes|
    modifies dst
    ensures (ok, dst.state) == PushOut(old(dst.state), bytes[..n])
  {
    var off := 0;
    ghost var all := bytes[..n];
    assert bytes[0..n] == all;
    while off < n
      invariant off <= n
      invariant PushOut(old(dst.state), all) == PushOut(dst.state, bytes[off..n])
      decreases |dst.state.takes| - dst.state.writeAt
    {
      var w := dst.Write(bytes[off..n]);
      match w {
        case Moved(k) =>
          if k <= 0 {
            return false;
          }
          assert bytes[off..n][k..] == bytes[off + k..n];
          off := off + k;
        case Failed(wouldBlock) =>
          if !wouldBlock {
            return false;
          }
      }
    }
    return true;
  }

  datatype PumpEnd = WriteError | FailpointFired | FailpointFiredHold

  class ClientPump {
    const framer: PacketFramer
    const client: TcpStream
    const server: TcpStream
    var swallow: bool
    var hold: bool
    var total: nat
    var commits: nat

    constructor (framer: PacketFramer, client: TcpStream, server: TcpStream)
      ensures this.framer == framer && this.client == client && this.server == server
      ensures !swallow && !hold && total == 0 && commits == 0
    {
      this.framer, this.client, this.server := framer, client, server;
      swallow, hold, total, commits := false, false, 0, 0;
    }

    /** Only what the fire decision leaves to be forwarded, and never before the flags are up. */
    method Forward(bytes: seq<byte>, fire: Option<Fire>) returns (ok: bool)
      requires fire.Some? ==> fire.value.end <= |bytes| && swallow
      requires fire.Some? && fire.value.result.action == DropAndHoldAfterForward ==> hold
      modifies server, `total
      ensures (ok, server.state) == PushOut(old(server.state), Forwarded(bytes, fire))
      ensures total == old(total) + if ok then |Forwarded(bytes, fire)| else 0
    {
      var n := |bytes|;
      if fire.Some? {
        n := fire.value.end;
      }
      assert bytes[..n] == Forwarded(bytes, fire);
      ok := ForwardAll(server, bytes, n);
      if ok {
        total := total + n;
      }
    }

    method ClosePair()
      requires client != server
      modifies client, server
      ensures client.state == old(client.state).(isOpen := false)
      ensures server.state == old(server.state).(isOpen := false)
    {
      var _ := client.Close();
      var _ := server.Close();
    }

    /**
     One read of the pump. A COMMIT that fires a failpoint is forwarded up to its last byte
     and nothing behind it is; the flags go up before. The immediate action closes both
     sockets, the holding one neither.
     */
    method OnRead(bytes: seq<byte>, reg: Registry, name: string)
      returns (end: Option<PumpEnd>, ghost ends: seq<nat>, ghost fire: Option<Fire>)
      requires framer.Valid() && client != server
      modifies this, framer, client, server, reg`entries
      ensures framer.Valid() && framer.history == old(framer.history) + bytes
      ensures framer.seen == old(framer.seen) + Shifted(ends, |old(framer.history)|)
      ensures fire == FirstFire(old(reg.entries), name, ends) && InChunk(ends, |bytes|)
      ensures commits == old(commits) + Observed(old(reg.entries), name, ends)
      ensures reg.entries == AfterCommits(old(reg.entries), name, commits - old(commits))
      ensures swallow == (old(swallow) || fire.Some?)
      ensures hold == (old(hold) || (fire.Some? && fire.value.result.action == DropAndHoldAfterForward))
      ensures end == EndOfRead(PushOut(old(server.state), Forwarded(bytes, fire)).0, fire)
      ensures var after := PushOut(old(server.state), Forwarded(bytes, fire)).1;
              server.state == if end == Some(FailpointFired) then after.(isOpen := false) else after
      ensures client.state == if end == Some(FailpointFired) then old(client.state).(isOpen := false)
                              else old(client.state)
    {
      hide PushOut, FirstFire, Observed, AfterCommits, FiresNow;
      var c, found := framer.FeedAndLocateCommits(bytes, |bytes|);
      assert bytes[..|bytes|] == bytes;
      ends := found;
      var decided, n := DecideFire(reg, name, found);
      FireIsInChunk(old(reg.entries), name, found, |bytes|);
      fire := decided;
      commits := commits + n;
      if decided.Some? {
        swallow := true;
        if decided.value.result.action == DropAndHoldAfterForward {
          hold := true;
        }
      }
      var ok := Forward(bytes, decided);
      if !ok {
        return Some(WriteError), ends, fire;
      }
      if decided.None? {
        return None, ends, fire;
      }
      if decided.value.result.action == DropAndHoldAfterForward {
        return Some(FailpointFiredHold), ends, fire;
      }
      ClosePair();
      return Some(FailpointFired), ends, fire;
    }
  }

  /** The ends located in a chunk lie in it. */
  predicate InChunk(ends: seq<nat>, n: nat) {
    forall i :: 0 <= i < |ends| ==> 0 < ends[i] <= n
  }

  lemma FireIsInChunk(es: seq<Entry>, name: string, ends: seq<nat>, n: nat)
    requires InChunk(ends, n)
    ensures var fire := FirstFire(es, name, ends);
            fire.Some? ==> fire.value.end in ends && 0 < fire.value.end <= n
  {
    FireIsTheLastObserved(es, name, ends);
  }

  function Forwarded(bytes: seq<byte>, fire: Option<Fire>): seq<byte> {
    if fire.Some? && fire.value.end <= |bytes| then bytes[..fire.value.end] else bytes
  }

  /** How the pump ends, if this read ends it. */
  function EndOfRead(forwarded: bool, fire: Option<Fire>): Option<PumpEnd> {
    if !forwarded then Some(WriteError)
    else if fire.None? then None
    else if fire.value.result.action == DropAndHoldAfterForward then Some(FailpointFiredHold)
    else Some(FailpointFired)
  }
}
