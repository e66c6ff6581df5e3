/**
 The COMMIT boundary, end to end: a session that commits through the proxy, whose failpoint
 fires on that very COMMIT.
 */
module FaultedCommits {
  import opened Basics
  import opened CommitOutcomes
  import opened PacketHeaders
  import opened SessionRuns
  import opened SessionTheorems
  import opened Sockets
  import opened Transport
  import opened WireTypes
  import Commands
  import Failpoints
  import Framing
  import Proxy = ProxyRuns

  /** The client's own COMMIT command is one the framer recognises. */
  lemma OwnCommitIsACommit()
    ensures Framing.IsCommitPayload([Commands.COM_QUERY] + Commands.COMMIT)
    ensures |COMMIT_PACKET| == Failpoints.COMMIT_PACKET_BYTES
  {
    var p := [Commands.COM_QUERY] + Commands.COMMIT;
    assert p[1..] == Commands.COMMIT;
    assert Framing.CommitAt(Commands.COMMIT, 0);
  }

  /** Written behind whole packets, it is found at exactly its end. */
  lemma OwnCommitIsSeen(before: seq<byte>)
    requires Framing.Tail(before) == []
    ensures |before| + |COMMIT_PACKET| in Framing.SeenIn(before + COMMIT_PACKET)
  {
    hide Framing.SeenIn, Framing.IsCommitPayload, Framing.Packets;
    OwnCommitIsACommit();
    var x := COMMIT_PACKET;
    assert [] + x == x;
    HeaderDeclares(7, 0);
    assert x[..4] == Header(7, 0) && x[4..] == [Commands.COM_QUERY] + Commands.COMMIT;
    assert Framing.IsWhole(x);
    Framing.PacketCompleted(before, x);
    assert Framing.CompletedBy(x, |before| + |x|) == [|before| + |x|];
  }

  function CountBelow(marks: seq<nat>, bound: nat): nat {
    if marks == [] then 0 else (if marks[0] < bound then 1 else 0) + CountBelow(marks[1..], bound)
  }

  lemma {:induction false} AllBelow(marks: seq<nat>, bound: nat)
    requires Proxy.Below(marks, bound)
    ensures CountBelow(marks, bound) == |marks|
  {
    if marks != [] {
      AllBelow(marks[1..], bound);
    }
  }

  /**
   A synchronous client has read every answer to what it sent before. If a failpoint fires
   on its COMMIT, then in every interleaving its `commit` comes back as ambiguous on a dead
   session, while the server has been handed everything up to the COMMIT's end (unless that
   write failed) and nothing more.
   */
  lemma FaultedCommitIsAmbiguous(w: Proxy.World, steps: seq<Proxy.Step>, s: Session, e: nat)
    requires Proxy.Initial(w) && Proxy.IsRun(w, steps)
    requires Sound(s) && Ready(s) && e == |s.stream.accepted| + |COMMIT_PACKET|
    requires var last := Proxy.After(w, steps);
             && last.client == Commit(s).1.stream.accepted
             && last.fired.Some? && last.fired.value.end == e
             && |s.stream.incoming| == |last.delivered| && s.stream.readPos == CountBelow(last.delivered, e)
    ensures Commit(s).0 == Err(AmbiguousWrite) && Commit(s).1.isClosed
    ensures var last := Proxy.After(w, steps);
            && last.toServer <= s.stream.accepted + COMMIT_PACKET
            && (last.c2s == Proxy.Ended && !last.writeFailed ==> last.toServer == s.stream.accepted + COMMIT_PACKET)
  {
    hide Commit, Proxy.Enabled, Proxy.Apply, Framing.SeenIn, Sound;
    var last := Proxy.After(w, steps);
    Proxy.FiringIsPrecise(w, steps);
    AllBelow(last.delivered, e);
    CommitOutcomeIsExact(s);
    assert SentWhole(s, Commit(s).1) by { WholeOrPart(s, Commit(s).1, e); }
    assert last.client[..e] == s.stream.accepted + COMMIT_PACKET;
    SilenceIsAmbiguous(s);
  }

  lemma WholeOrPart(s: Session, t: Session, e: nat)
    requires e == |s.stream.accepted| + |COMMIT_PACKET| && e <= |t.stream.accepted|
    requires SentWhole(s, t) || SentPartly(s, t)
    ensures SentWhole(s, t)
  {}

  // ------------------------------------------------------ such a fault can happen

  /** A proxied connection that has passed everything on so far. */
  ghost predicate Idle(w: Proxy.World, sent: nat) {
    && sent <= |w.client| && w.taken == sent && w.toServer == w.client[..sent]
    && !w.swallow && !w.hold && !w.closed && w.c2s == Proxy.Reading && w.s2c == Proxy.Waiting
    && w.fired == None && !w.writeFailed
    && w.fetched == |w.emitted| && w.delivered == w.emitted
  }

  /** Everything the client sent before goes through. */
  lemma EarlierBytesPass(w: Proxy.World, sent: nat) returns (steps: seq<Proxy.Step>)
    requires Idle(w, 0) && sent <= |w.client| && w.emitted == []
    ensures Proxy.IsRun(w, steps)
    ensures Proxy.After(w, steps) == w.(taken := sent, toServer := w.client[..sent])
  {
    hide Proxy.IsRun, Proxy.After;
    if sent == 0 {
      Proxy.EmptyRun(w);
      steps := [];
    } else {
      var rest := w.client[0..sent];
      assert rest[..sent] == rest && [] + rest == w.client[..sent];
      var w1 := Proxy.Apply(w, Proxy.ReadClient(sent, None));
      var w2 := Proxy.Apply(w1, Proxy.NothingFired);
      var w3 := Proxy.Apply(w2, Proxy.WriteServer(sent));
      Proxy.EmptyRun(Proxy.Apply(w3, Proxy.WrittenAll));
      steps := Proxy.StepFirst(w3, Proxy.WrittenAll, []);
      steps := Proxy.StepFirst(w2, Proxy.WriteServer(sent), steps);
      steps := Proxy.StepFirst(w1, Proxy.NothingFired, steps);
      steps := Proxy.StepFirst(w, Proxy.ReadClient(sent, None), steps);
    }
  }

  /** So does any number of bytes the server answers with. */
  lemma {:induction false} EarlierAnswersPass(w: Proxy.World, sent: nat, answered: nat) returns (steps: seq<Proxy.Step>)
    requires Idle(w, sent)
    ensures Proxy.IsRun(w, steps)
    ensures var last := Proxy.After(w, steps);
            Idle(last, sent) && last.client == w.client && |last.delivered| == |w.delivered| + answered
    decreases answered
  {
    hide Proxy.IsRun, Proxy.After, Proxy.Enabled, Proxy.Apply, Idle;
    if answered == 0 {
      Proxy.EmptyRun(w);
      steps := [];
    } else {
      var one, w' := OneAnswerPasses(w, sent);
      var more := EarlierAnswersPass(w', sent, answered - 1);
      Proxy.ThenRun(w, one, more);
      steps := one + more;
    }
  }

  lemma OneAnswerPasses(w: Proxy.World, sent: nat) returns (steps: seq<Proxy.Step>, w': Proxy.World)
    requires Idle(w, sent)
    ensures Proxy.IsRun(w, steps) && Proxy.After(w, steps) == w'
    ensures Idle(w', sent) && w'.client == w.client && |w'.delivered| == |w.delivered| + 1
  {
    hide Proxy.IsRun, Proxy.After, Proxy.LimitAfter, Proxy.CompletesCommit;
    var w1 := Proxy.Apply(w, Proxy.Emit(0));
    var w2 := Proxy.Apply(w1, Proxy.ReadServer(1));
    var w3 := Proxy.Apply(w2, Proxy.TestSwallow);
    var w4 := Proxy.Apply(w3, Proxy.WriteClient(1));
    w' := Proxy.Apply(w4, Proxy.PassedAll);
    assert w3.s2c == Proxy.Passing([0]);
    Proxy.EmptyRun(w');
    steps := Proxy.StepFirst(w4, Proxy.PassedAll, []);
    steps := Proxy.StepFirst(w3, Proxy.WriteClient(1), steps);
    steps := Proxy.StepFirst(w2, Proxy.TestSwallow, steps);
    steps := Proxy.StepFirst(w1, Proxy.ReadServer(1), steps);
    steps := Proxy.StepFirst(w, Proxy.Emit(0), steps);
  }

  /** The COMMIT arrives, fires, goes out whole, and the connection ends. */
  lemma CommitFires(w: Proxy.World, sent: nat, action: Failpoints.Action) returns (steps: seq<Proxy.Step>)
    requires Idle(w, sent) && sent < |w.client| && |w.client| in Framing.SeenIn(w.client)
    ensures Proxy.IsRun(w, steps)
    ensures var last := Proxy.After(w, steps);
            && last.client == w.client && last.fired == Some(Proxy.Firing(|w.client|, action))
            && last.delivered == w.delivered && last.c2s == Proxy.Ended && !last.writeFailed
  {
    hide Framing.SeenIn, Proxy.IsRun, Proxy.After;
    var n := |w.client| - sent;
    var fire := Some(Proxy.Firing(|w.client|, action));
    assert w.client[..sent + n] == w.client;
    var w1 := Proxy.Apply(w, Proxy.ReadClient(n, fire));
    var w2 := Raise(w1, fire);
    var w3 := Proxy.Apply(w2, Proxy.WriteServer(n));
    var w4 := Proxy.Apply(w3, Proxy.WrittenAll);
    var w5 := if Proxy.Holds(fire) then Proxy.Apply(w4, Proxy.WakeUp) else w4;
    Proxy.EmptyRun(Proxy.Apply(w5, Proxy.CloseFromClient));
    steps := Proxy.StepFirst(w5, Proxy.CloseFromClient, []);
    if Proxy.Holds(fire) {
      steps := Proxy.StepFirst(w4, Proxy.WakeUp, steps);
    }
    steps := Proxy.StepFirst(w3, Proxy.WrittenAll, steps);
    steps := Proxy.StepFirst(w2, Proxy.WriteServer(n), steps);
    if Proxy.Holds(fire) {
      steps := Proxy.StepFirst(Proxy.Apply(w1, Proxy.RaiseSwallow), Proxy.RaiseHold, steps);
    }
    steps := Proxy.StepFirst(w1, Proxy.RaiseSwallow, steps);
    steps := Proxy.StepFirst(w, Proxy.ReadClient(n, fire), steps);
  }

  ghost function Raise(w: Proxy.World, fire: Option<Proxy.Firing>): Proxy.World
    requires w.c2s.Decided? && w.c2s.fire == fire && fire.Some?
  {
    var w' := Proxy.Apply(w, Proxy.RaiseSwallow);
    if Proxy.Holds(fire) then Proxy.Apply(w', Proxy.RaiseHold) else w'
  }

  /**
   Such a fault, with either action, can befall any ready session that has written whole
   packets and read every answer, when its COMMIT is taken whole.
   */
  lemma FaultCanHappen(s: Session, action: Failpoints.Action) returns (w: Proxy.World, steps: seq<Proxy.Step>)
    requires Sound(s) && Ready(s) && Framing.Tail(s.stream.accepted) == []
    requires s.stream.readPos == |s.stream.incoming| && KeepsTaking(s.stream, |COMMIT_PACKET|)
    ensures Proxy.Initial(w) && Proxy.IsRun(w, steps)
    ensures var e := |s.stream.accepted| + |COMMIT_PACKET|;
            var last := Proxy.After(w, steps);
            && last.client == Commit(s).1.stream.accepted
            && last.fired == Some(Proxy.Firing(e, action))
            && |s.stream.incoming| == |last.delivered| && s.stream.readPos == CountBelow(last.delivered, e)
            && last.c2s == Proxy.Ended && !last.writeFailed
  {
    hide Commit, Framing.SeenIn, Proxy.IsRun, Proxy.After, Sound, Proxy.Apply, Proxy.Enabled, COMMIT_PACKET;
    CommitGoesOut(s);
    OwnCommitIsACommit();
    OwnCommitIsSeen(s.stream.accepted);
    var (sent, client) := (|s.stream.accepted|, s.stream.accepted + COMMIT_PACKET);
    w := Proxy.World(client, 0, [], [], 0, [], false, false, false, Proxy.Reading, Proxy.Waiting, None, false);
    var before := EarlierBytesPass(w, sent);
    var w1 := Proxy.After(w, before);
    var answers := EarlierAnswersPass(w1, sent, s.stream.readPos);
    var w2 := Proxy.After(w1, answers);
    var commit := CommitFires(w2, sent, action);
    Proxy.ThenRun(w1, answers, commit);
    Proxy.ThenRun(w, before, answers + commit);
    steps := before + (answers + commit);
    Proxy.FiringIsPrecise(w, steps);
    AllBelow(Proxy.After(w, steps).delivered, sent + |COMMIT_PACKET|);
  }
}
