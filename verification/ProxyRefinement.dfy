/** One read of the client-to-server pump is a run of its thread in the transition system. */
module ProxyRefinement {
  import opened Basics
  import Failpoints
  import opened Framing
  import opened ProxyPumps
  import opened ProxyRuns
  import opened Sockets

  /** A fire decision in terms of the client's whole stream. */
  function FiringOf(taken: nat, fire: Option<Fire>): Option<Firing> {
    match fire
    case None => None
    case Some(f) => Some(Firing(taken + f.end, f.result.action))
  }

  /** The decided fire completes a COMMIT, and what is forwarded is what the step leaves. */
  lemma DecisionIsAStep(w: World, n: nat, ends: seq<nat>, es: seq<Failpoints.Entry>, name: string)
    requires w.c2s == Reading && !w.closed && 0 < n && w.taken + n <= |w.client| && InChunk(ends, n)
    requires SeenIn(w.client[..w.taken + n]) == SeenIn(w.client[..w.taken]) + Shifted(ends, w.taken)
    ensures var fire := FirstFire(es, name, ends);
            var step := ReadClient(n, FiringOf(w.taken, fire));
            && Enabled(w, step)
            && Apply(w, step).c2s == Decided(Forwarded(w.client[w.taken..w.taken + n], fire), step.fire)
            && Forwarded(w.client[w.taken..w.taken + n], fire) == w.client[w.taken..LimitAfter(w, n, step.fire)]
  {
    hide SeenIn, FirstFire;
    var fire := FirstFire(es, name, ends);
    FireIsInChunk(es, name, ends, n);
    if fire.Some? {
      var i :| 0 <= i < |ends| && ends[i] == fire.value.end;
      assert Shifted(ends, w.taken)[i] == w.taken + fire.value.end;
      assert w.taken + fire.value.end in SeenIn(w.client[..w.taken + n]);
    }
  }

  /** The world after the pump's thread has dealt with one read, `k` bytes of it written. */
  ghost function AfterRead(w: World, n: nat, fire: Option<Firing>, rest: seq<byte>, k: nat): World
    requires k <= |rest|
  {
    var w' := w.(taken := w.taken + n, fired := fire, swallow := w.swallow || fire.Some?,
                 hold := w.hold || Holds(fire), toServer := w.toServer + rest[..k]);
    if k < |rest| then w'.(writeFailed := true, c2s := Ending)
    else if fire.None? then w'.(c2s := Reading)
    else if Holds(fire) then w'.(c2s := Sleeping)
    else w'.(closed := true, c2s := Ended)
  }

  /** From the decision on: flags up, bytes out, and the end if there is one. */
  lemma FlagsAreRaised(w: World, rest: seq<byte>, fire: Option<Firing>, tail: seq<Step>) returns (steps: seq<Step>)
    requires w.c2s == Decided(rest, fire)
    requires IsRun(Raised(w, rest, fire), tail)
    ensures IsRun(w, steps) && After(w, steps) == After(Raised(w, rest, fire), tail)
  {
    hide IsRun, After;
    if fire.None? {
      steps := StepFirst(w, NothingFired, tail);
    } else if Holds(fire) {
      steps := StepFirst(Apply(w, RaiseSwallow), RaiseHold, tail);
      steps := StepFirst(w, RaiseSwallow, steps);
    } else {
      steps := StepFirst(w, RaiseSwallow, tail);
    }
  }

  ghost function Raised(w: World, rest: seq<byte>, fire: Option<Firing>): World {
    w.(swallow := w.swallow || fire.Some?, hold := w.hold || Holds(fire), c2s := Forwarding(rest, fire))
  }

  lemma BytesGoOut(w: World, rest: seq<byte>, fire: Option<Firing>, k: nat) returns (steps: seq<Step>)
    requires w.c2s == Forwarding(rest, fire) && !w.closed && k <= |rest|
    ensures IsRun(w, steps)
    ensures After(w, steps) == w.(toServer := w.toServer + rest[..k], c2s := Forwarding(rest[k..], fire))
  {
    hide IsRun, After;
    if k == 0 {
      EmptyRun(w);
      steps := [];
      assert rest[..0] == [] && rest[0..] == rest && w.toServer + [] == w.toServer;
    } else {
      EmptyRun(Apply(w, WriteServer(k)));
      steps := StepFirst(w, WriteServer(k), []);
    }
  }

  lemma ReadEnds(w: World, rest: seq<byte>, fire: Option<Firing>) returns (steps: seq<Step>)
    requires w.c2s == Forwarding(rest, fire)
    ensures IsRun(w, steps)
    ensures After(w, steps) == if rest != [] then w.(writeFailed := true, c2s := Ending)
                               else if fire.None? then w.(c2s := Reading)
                               else if Holds(fire) then w.(c2s := Sleeping)
                               else w.(closed := true, c2s := Ended)
  {
    hide IsRun, After;
    if rest != [] {
      EmptyRun(Apply(w, WriteServerFails));
      steps := StepFirst(w, WriteServerFails, []);
    } else {
      var w1 := Apply(w, WrittenAll);
      if fire.None? || Holds(fire) {
        EmptyRun(w1);
        steps := StepFirst(w, WrittenAll, []);
      } else {
        EmptyRun(Apply(w1, CloseFromClient));
        steps := StepFirst(w1, CloseFromClient, []);
        steps := StepFirst(w, WrittenAll, steps);
      }
    }
  }

  lemma ReadIsARun(w: World, n: nat, fire: Option<Firing>, rest: seq<byte>, k: nat) returns (steps: seq<Step>)
    requires Enabled(w, ReadClient(n, fire)) && rest == w.client[w.taken..LimitAfter(w, n, fire)] && k <= |rest|
    ensures IsRun(w, steps) && After(w, steps) == AfterRead(w, n, fire, rest, k)
  {
    hide IsRun, After, CompletesCommit;
    var w1 := Apply(w, ReadClient(n, fire));
    var w2 := Raised(w1, rest, fire);
    var out := BytesGoOut(w2, rest, fire, k);
    var end := ReadEnds(After(w2, out), rest[k..], fire);
    ThenRun(w2, out, end);
    steps := FlagsAreRaised(w1, rest, fire, out + end);
    steps := StepFirst(w, ReadClient(n, fire), steps);
  }

  /** The pump object stands where the world's client-to-server thread waits for a read. */
  ghost predicate Matches(pump: ClientPump, w: World)
    reads pump, pump.framer, pump.client, pump.server
  {
    && pump.framer.Valid() && pump.client != pump.server
    && w.taken <= |w.client| && pump.framer.history == w.client[..w.taken]
    && pump.swallow == w.swallow && pump.hold == w.hold && pump.server.state.accepted == w.toServer
  }

  /**
   The pump refines its thread: a read of the next `n` bytes of the client's stream leaves
   the pump matching the world that a run of that thread leads to. Whatever is proved of
   every run holds of the program.
   */
  method PumpRead(pump: ClientPump, bytes: seq<byte>, reg: Failpoints.Registry, name: string, ghost w: World)
    returns (end: Option<PumpEnd>, ghost steps: seq<Step>)
    requires Matches(pump, w) && w.c2s == Reading && !w.closed
    requires bytes != [] && w.taken + |bytes| <= |w.client| && bytes == w.client[w.taken..w.taken + |bytes|]
    modifies pump, pump.framer, pump.client, pump.server, reg`entries
    ensures IsRun(w, steps) && Matches(pump, After(w, steps))
    ensures end.None? <==> After(w, steps).c2s == Reading
    ensures end == Some(FailpointFired) <==> After(w, steps).closed
    ensures end == Some(FailpointFired) <==> After(w, steps).c2s == Ended
    ensures end == Some(FailpointFiredHold) <==> After(w, steps).c2s == Sleeping
    ensures end == Some(WriteError) <==> After(w, steps).c2s == Ending
  {
    hide SeenIn, IsRun, After, Apply, Enabled, FirstFire, PushOut, AfterRead;
    ghost var (es, before) := (reg.entries, pump.server.state);
    ghost var ends, fire;
    end, ends, fire := pump.OnRead(bytes, reg, name);
    steps := ReadOfChunk(w, bytes, ends, es, name, before);
    MatchesAfterRead(w, bytes, fire, before);
  }

  /** The run that a read of `bytes` stands for, up to what the server takes of them. */
  lemma ReadOfChunk(
    w: World, bytes: seq<byte>, ends: seq<nat>, es: seq<Failpoints.Entry>, name: string, server: Stream)
    returns (steps: seq<Step>)
    requires w.c2s == Reading && !w.closed && bytes != [] && InChunk(ends, |bytes|)
    requires w.taken + |bytes| <= |w.client| && bytes == w.client[w.taken..w.taken + |bytes|]
    requires SeenIn(w.client[..w.taken] + bytes) == SeenIn(w.client[..w.taken]) + Shifted(ends, w.taken)
    ensures var fire := FirstFire(es, name, ends);
            IsRun(w, steps) && After(w, steps) == WorldAfter(w, bytes, fire, server)
  {
    hide SeenIn, IsRun, After, Apply, Enabled, FirstFire, PushOut, AfterRead;
    var fire := FirstFire(es, name, ends);
    assert w.client[..w.taken] + bytes == w.client[..w.taken + |bytes|];
    DecisionIsAStep(w, |bytes|, ends, es, name);
    AcceptedIsPrefix(server, Forwarded(bytes, fire));
    steps := ReadIsARun(w, |bytes|, FiringOf(w.taken, fire), Forwarded(bytes, fire), TakenOf(server, bytes, fire));
  }

  /** How many of the bytes to be forwarded the server takes. */
  function TakenOf(server: Stream, bytes: seq<byte>, fire: Option<Fire>): nat {
    |PushOut(server, Forwarded(bytes, fire)).1.accepted| - |server.accepted|
  }

  ghost function WorldAfter(w: World, bytes: seq<byte>, fire: Option<Fire>, server: Stream): World {
    AcceptedIsPrefix(server, Forwarded(bytes, fire));
    AfterRead(w, |bytes|, FiringOf(w.taken, fire), Forwarded(bytes, fire), TakenOf(server, bytes, fire))
  }

  lemma MatchesAfterRead(w: World, bytes: seq<byte>, fire: Option<Fire>, server: Stream)
    requires w.c2s == Reading && !w.closed && server.accepted == w.toServer
    ensures var (w', end) := (WorldAfter(w, bytes, fire, server),
                              EndOfRead(PushOut(server, Forwarded(bytes, fire)).0, fire));
            && w'.taken == w.taken + |bytes| && w'.client == w.client
            && w'.swallow == (w.swallow || fire.Some?)
            && w'.hold == (w.hold || (fire.Some? && fire.value.result.action == Failpoints.DropAndHoldAfterForward))
            && w'.toServer == PushOut(server, Forwarded(bytes, fire)).1.accepted
            && (end.None? <==> w'.c2s == Reading) && (end == Some(FailpointFired) <==> w'.closed)
            && (end == Some(FailpointFired) <==> w'.c2s == Ended)
            && (end == Some(FailpointFiredHold) <==> w'.c2s == Sleeping)
            && (end == Some(WriteError) <==> w'.c2s == Ending)
  {
    hide PushOut;
    AcceptedIsPrefix(server, Forwarded(bytes, fire));
  }

  lemma AcceptedIsPrefix(s: Stream, bytes: seq<byte>)
    ensures var (ok, t) := PushOut(s, bytes);
            var k := |t.accepted| - |s.accepted|;
            0 <= k <= |bytes| && t.accepted == s.accepted + bytes[..k] && (ok <==> k == |bytes|)
  {
    var (ok, t) := PushOut(s, bytes);
    var k := |t.accepted| - |s.accepted|;
    assert t.accepted == (s.accepted + bytes)[..|t.accepted|];
    assert t.accepted == s.accepted + bytes[..k];
    if k == |bytes| {
      assert bytes[..k] == bytes;
    }
  }
}
