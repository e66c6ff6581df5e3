/**
 The two pumps of a proxied connection as threads, interleaved in every way with each other
 and with a server that answers when it likes. A byte the server sends is marked with the
 number of client bytes it had been handed by then: an answer to a COMMIT that ends at
 offset `e` of the client's stream can only carry marks of `e` and more.
 */
module ProxyRuns {
  import opened Basics
  import opened Failpoints
  import opened Framing

  /** A fired failpoint: where its COMMIT ends in the client's stream, and what it does. */
  datatype Firing = Firing(end: nat, action: Action)

  /** Where the client-to-server pump stands; `rest` is what it has still to forward. */
  datatype ToServer =
    | Reading
    | Decided(rest: seq<byte>, fire: Option<Firing>)
    | SwallowUp(rest: seq<byte>, fire: Option<Firing>)    // `hold` still to be raised
    | Forwarding(rest: seq<byte>, fire: Option<Firing>)
    | Sleeping
    | Ending
    | Ended

  /** Where the server-to-client pump stands; chunks are given by their bytes' marks. */
  datatype ToClient =
    | Waiting
    | HasRead(chunk: seq<nat>)
    | SawSwallow(chunk: seq<nat>)
    | Passing(rest: seq<nat>)
    | Closing
    | Gone

  datatype World = World(
    client: seq<byte>,      // all the client ever sends
    taken: nat,             // how much of it the proxy has read
    toServer: seq<byte>,    // what the server has been handed
    emitted: seq<nat>,      // marks of the bytes the server has sent
    fetched: nat,           // how many of them the proxy has read
    delivered: seq<nat>,    // marks of the bytes handed to the client
    swallow: bool, hold: bool, closed: bool,
    c2s: ToServer, s2c: ToClient,
    fired: Option<Firing>,  // history: the firing, once there is one
    writeFailed: bool)      // history: a write to the server failed

  datatype Step =
    | ReadClient(n: nat, fire: Option<Firing>) | RaiseSwallow | RaiseHold | NothingFired
    | WriteServer(k: nat) | WriteServerFails | WrittenAll | WakeUp | ClientGone | CloseFromClient
    | ReadServer(n: nat) | TestSwallow | TestHold | WriteClient(k: nat) | PassedAll | ServerSideFails | CloseFromServer
    | Emit(mark: nat)

  function Holds(f: Option<Firing>): bool {
    f.Some? && f.value.action == DropAndHoldAfterForward
  }

  /** Reading `n` more bytes completes the COMMIT packet that ends at `end`. */
  ghost predicate CompletesCommit(w: World, n: nat, end: nat)
    requires w.taken + n <= |w.client|
  {
    w.taken < end <= w.taken + n && end in SeenIn(w.client[..w.taken + n])
  }

  ghost predicate Enabled(w: World, step: Step) {
    match step
    case ReadClient(n, fire) =>
      && w.c2s == Reading && !w.closed && 0 < n && w.taken + n <= |w.client|
      && (fire.Some? ==> CompletesCommit(w, n, fire.value.end))
    case RaiseSwallow => w.c2s.Decided? && w.c2s.fire.Some?
    case RaiseHold => w.c2s.SwallowUp?
    case NothingFired => w.c2s.Decided? && w.c2s.fire.None?
    case WriteServer(k) => w.c2s.Forwarding? && !w.closed && 0 < k <= |w.c2s.rest|
    case WriteServerFails => w.c2s.Forwarding? && w.c2s.rest != []
    case WrittenAll => w.c2s.Forwarding? && w.c2s.rest == []
    case WakeUp => w.c2s == Sleeping
    case ClientGone => w.c2s == Reading
    case CloseFromClient => w.c2s == Ending
    case ReadServer(n) => w.s2c == Waiting && !w.closed && 0 < n && w.fetched + n <= |w.emitted|
    case TestSwallow => w.s2c.HasRead?
    case TestHold => w.s2c.SawSwallow?
    case WriteClient(k) => w.s2c.Passing? && !w.closed && 0 < k <= |w.s2c.rest|
    case PassedAll => w.s2c.Passing? && w.s2c.rest == []
    case ServerSideFails => w.s2c == Waiting || w.s2c.Passing?
    case CloseFromServer => w.s2c == Closing
    case Emit(mark) => mark <= |w.toServer|
  }

  /** What a read leaves to be forwarded: up to the end of a firing COMMIT, or all of it. */
  function LimitAfter(w: World, n: nat, fire: Option<Firing>): nat {
    if fire.Some? then fire.value.end else w.taken + n
  }

  ghost function Apply(w: World, step: Step): World
    requires Enabled(w, step)
  {
    match step
    case ReadClient(n, fire) =>
      w.(taken := w.taken + n, fired := fire, c2s := Decided(w.client[w.taken..LimitAfter(w, n, fire)], fire))
    case RaiseSwallow =>
      w.(swallow := true,
         c2s := if Holds(w.c2s.fire) then SwallowUp(w.c2s.rest, w.c2s.fire) else Forwarding(w.c2s.rest, w.c2s.fire))
    case RaiseHold => w.(hold := true, c2s := Forwarding(w.c2s.rest, w.c2s.fire))
    case NothingFired => w.(c2s := Forwarding(w.c2s.rest, w.c2s.fire))
    case WriteServer(k) =>
      w.(toServer := w.toServer + w.c2s.rest[..k], c2s := Forwarding(w.c2s.rest[k..], w.c2s.fire))
    case WriteServerFails => w.(writeFailed := true, c2s := Ending)
    case WrittenAll =>
      w.(c2s := if w.c2s.fire.None? then Reading else if Holds(w.c2s.fire) then Sleeping else Ending)
    case WakeUp => w.(c2s := Ending)
    case ClientGone => w.(c2s := Ending)
    case CloseFromClient => w.(closed := true, c2s := Ended)
    case ReadServer(n) => w.(fetched := w.fetched + n, s2c := HasRead(w.emitted[w.fetched..w.fetched + n]))
    case TestSwallow => w.(s2c := if w.swallow then SawSwallow(w.s2c.chunk) else Passing(w.s2c.chunk))
    case TestHold => w.(s2c := if w.hold then Waiting else Closing)
    case WriteClient(k) => w.(delivered := w.delivered + w.s2c.rest[..k], s2c := Passing(w.s2c.rest[k..]))
    case PassedAll => w.(s2c := Waiting)
    case ServerSideFails => w.(s2c := Closing)
    case CloseFromServer => w.(closed := true, s2c := Gone)
    case Emit(mark) => w.(emitted := w.emitted + [mark])
  }

  ghost predicate Initial(w: World) {
    && w.taken == 0 && w.toServer == [] && w.emitted == [] && w.fetched == 0 && w.delivered == []
    && !w.swallow && !w.hold && !w.closed && w.c2s == Reading && w.s2c == Waiting
    && w.fired == None && !w.writeFailed
  }

  ghost predicate IsRun(w: World, steps: seq<Step>)
    decreases |steps|
  {
    steps == [] || (Enabled(w, steps[0]) && IsRun(Apply(w, steps[0]), steps[1..]))
  }

  ghost function After(w: World, steps: seq<Step>): World
    requires IsRun(w, steps)
    decreases |steps|
  {
    if steps == [] then w else After(Apply(w, steps[0]), steps[1..])
  }

  // ------------------------------------------------------ the invariant

  ghost predicate Below(marks: seq<nat>, bound: nat) {
    forall i :: 0 <= i < |marks| ==> marks[i] < bound
  }

  ghost predicate AtMost(marks: seq<nat>, bound: nat) {
    forall i :: 0 <= i < |marks| ==> marks[i] <= bound
  }

  function Limit(w: World): nat {
    if w.fired.Some? then w.fired.value.end else w.taken
  }

  predicate Pumping(c: ToServer) {
    c.Decided? || c.SwallowUp? || c.Forwarding?
  }

  /** The server gets the client's bytes in order, up to the limit and not beyond. */
  ghost predicate InStep(w: World) {
    && Limit(w) <= w.taken <= |w.client|
    && w.toServer <= w.client[..Limit(w)]
    && (w.c2s == Reading ==> |w.toServer| == w.taken)
    && (Pumping(w.c2s) ==> w.toServer + w.c2s.rest == w.client[..Limit(w)])
  }

  /** The flags are up before the firing COMMIT's last byte can reach the server. */
  ghost predicate FlagsFirst(w: World) {
    && (w.c2s == Reading ==> w.fired == None)
    && (Pumping(w.c2s) ==> w.c2s.fire == w.fired)
    && (w.c2s == Sleeping ==> Holds(w.fired))
    && (w.c2s.SwallowUp? ==> Holds(w.fired))
    && (w.fired.Some? && !w.swallow ==> w.c2s.Decided?)
    && (Holds(w.fired) && !w.hold ==> w.c2s.Decided? || w.c2s.SwallowUp?)
    && (w.fired.Some? && (w.c2s.Decided? || w.c2s.SwallowUp?) ==> |w.toServer| < w.fired.value.end)
    && (w.swallow ==> w.fired.Some?)
    && (w.c2s == Reading || w.c2s.Decided? ==> !w.swallow)
    && (w.c2s.SwallowUp? ==> !w.hold)
    && (w.hold ==> w.swallow)
  }

  /** Nothing marked with the firing COMMIT's end or more is on its way to the client. */
  ghost predicate Swallowed(w: World) {
    && AtMost(w.emitted, |w.toServer|) && w.fetched <= |w.emitted|
    && (w.s2c.HasRead? ==> AtMost(w.s2c.chunk, |w.toServer|))
    && (w.fired.Some? ==>
          && Below(w.delivered, w.fired.value.end)
          && (w.s2c.Passing? ==> Below(w.s2c.rest, w.fired.value.end)))
    && AtMost(w.delivered, |w.toServer|)
    && (w.s2c.Passing? ==> AtMost(w.s2c.rest, |w.toServer|))
  }

  /** A fired failpoint that got its bytes out delivered exactly those up to the COMMIT's end. */
  ghost predicate Complete(w: World) {
    && Limit(w) <= w.taken <= |w.client|
    && (w.fired.Some? && !w.writeFailed && (w.c2s == Sleeping || w.c2s == Ending || w.c2s == Ended) ==>
          w.toServer == w.client[..w.fired.value.end])
    && (w.fired.Some? ==> w.fired.value.end in SeenIn(w.client[..w.taken]))
  }

  /** What the server-to-client pump has read and not yet handed on. */
  function InHand(c: ToClient): seq<nat> {
    match c
    case HasRead(chunk) => chunk
    case Passing(rest) => rest
    case _ => []
  }

  /** The client gets the server's bytes in order, all of those read while nothing is swallowed. */
  ghost predicate Verbatim(w: World) {
    && w.fetched <= |w.emitted|
    && w.delivered <= w.emitted[..w.fetched]
    && (!w.swallow && w.s2c != Closing && w.s2c != Gone ==> w.delivered + InHand(w.s2c) == w.emitted[..w.fetched])
    && (w.s2c.Passing? ==> w.delivered + InHand(w.s2c) == w.emitted[..w.fetched])
    && (w.s2c.SawSwallow? ==> w.swallow)
  }

  ghost predicate Inv(w: World) {
    InStep(w) && FlagsFirst(w) && Swallowed(w) && Complete(w) && Verbatim(w)
  }

  lemma InitialInv(w: World)
    requires Initial(w)
    ensures Inv(w)
  {}

  lemma InStepKept(w: World, step: Step)
    requires Inv(w) && Enabled(w, step)
    ensures InStep(Apply(w, step))
  {
    hide Below, AtMost, SeenIn, Swallowed;
    match step {
      case ReadClient(n, fire) =>
        var l := LimitAfter(w, n, fire);
        assert w.toServer == w.client[..w.taken];
        assert w.client[..w.taken] + w.client[w.taken..l] == w.client[..l];
      case WriteServer(k) =>
        assert w.c2s.rest[..k] + w.c2s.rest[k..] == w.c2s.rest;
        assert w.toServer + w.c2s.rest[..k] + w.c2s.rest[k..] == w.toServer + w.c2s.rest;
      case _ =>
    }
  }

  lemma FlagsFirstKept(w: World, step: Step)
    requires Inv(w) && Enabled(w, step)
    ensures FlagsFirst(Apply(w, step))
  {
    hide Below, AtMost, SeenIn, Swallowed;
  }

  lemma SwallowedKept(w: World, step: Step)
    requires Inv(w) && Enabled(w, step)
    ensures Swallowed(Apply(w, step))
  {
    hide SeenIn, Complete;
  }

  lemma CompleteKept(w: World, step: Step)
    requires Inv(w) && Enabled(w, step)
    ensures Complete(Apply(w, step))
  {
    hide Below, AtMost, SeenIn, Swallowed;
  }

  lemma VerbatimReadServer(w: World, n: nat)
    requires Verbatim(w) && Enabled(w, ReadServer(n))
    ensures Verbatim(Apply(w, ReadServer(n)))
  {
    var (a, b) := (w.fetched, w.fetched + n);
    assert w.emitted[..a] + w.emitted[a..b] == w.emitted[..b];
    PrefixOfMore(w.delivered, w.emitted, a, b);
  }

  lemma VerbatimWriteClient(w: World, k: nat)
    requires Verbatim(w) && Enabled(w, WriteClient(k))
    ensures Verbatim(Apply(w, WriteClient(k)))
  {
    var (sent, left) := (w.s2c.rest[..k], w.s2c.rest[k..]);
    assert sent + left == w.s2c.rest;
    assert w.delivered + sent + left == w.delivered + w.s2c.rest;
  }

  lemma VerbatimEmit(w: World, mark: nat)
    requires Verbatim(w) && Enabled(w, Emit(mark))
    ensures Verbatim(Apply(w, Emit(mark)))
  {
    assert (w.emitted + [mark])[..w.fetched] == w.emitted[..w.fetched];
  }

  lemma VerbatimKept(w: World, step: Step)
    requires Inv(w) && Enabled(w, step)
    ensures Verbatim(Apply(w, step))
  {
    hide SeenIn, Swallowed, InStep, Complete;
    match step {
      case ReadServer(n) => VerbatimReadServer(w, n);
      case WriteClient(k) => VerbatimWriteClient(w, k);
      case Emit(mark) => VerbatimEmit(w, mark);
      case _ =>
    }
  }

  lemma PrefixOfMore(d: seq<nat>, e: seq<nat>, a: nat, b: nat)
    requires a <= b <= |e| && d <= e[..a]
    ensures d <= e[..b]
  {}

  lemma StepKeepsInv(w: World, step: Step)
    requires Inv(w) && Enabled(w, step)
    ensures Inv(Apply(w, step))
  {
    hide Apply, Inv, Enabled;
    InStepKept(w, step);
    FlagsFirstKept(w, step);
    SwallowedKept(w, step);
    CompleteKept(w, step);
    VerbatimKept(w, step);
    assert Inv(Apply(w, step)) by { InvFromParts(Apply(w, step)); }
  }

  lemma InvFromParts(w: World)
    requires InStep(w) && FlagsFirst(w) && Swallowed(w) && Complete(w) && Verbatim(w)
    ensures Inv(w)
  {}

  lemma {:induction false} RunKeepsInv(w: World, steps: seq<Step>)
    requires Inv(w) && IsRun(w, steps)
    ensures Inv(After(w, steps))
    decreases |steps|
  {
    hide Inv, Enabled, Apply;
    if steps != [] {
      StepKeepsInv(w, steps[0]);
      RunKeepsInv(Apply(w, steps[0]), steps[1..]);
    }
  }

  // ------------------------------------------------------ the fault action

  /**
   When a failpoint has fired, in whatever order the threads and the server took their
   turns: it was a COMMIT's end that fired, the server has been handed nothing behind it (and
   everything up to it, once the pump is through and no write failed), and no byte that can
   belong to the COMMIT's answer has reached the client.
   */
  lemma FiringIsPrecise(w: World, steps: seq<Step>)
    requires Initial(w) && IsRun(w, steps) && After(w, steps).fired.Some?
    ensures var last := After(w, steps);
            var e := last.fired.value.end;
            && e <= last.taken <= |last.client| && e in SeenIn(last.client[..last.taken])
            && last.toServer <= last.client[..e]
            && ((last.c2s == Sleeping || last.c2s == Ending || last.c2s == Ended) && !last.writeFailed ==>
                  last.toServer == last.client[..e])
            && Below(last.delivered, e)
  {
    hide Apply, Enabled;
    InitialInv(w);
    RunKeepsInv(w, steps);
  }

  /** As long as nothing has fired, the proxy is transparent in both directions. */
  lemma TransparentUntilFired(w: World, steps: seq<Step>)
    requires Initial(w) && IsRun(w, steps) && After(w, steps).fired.None?
    ensures var last := After(w, steps);
            && last.toServer <= last.client
            && (last.c2s == Reading ==> |last.toServer| == last.taken)
            && last.delivered <= last.emitted
            && (last.s2c == Waiting ==> |last.delivered| == last.fetched)
  {
    hide Apply, Enabled;
    InitialInv(w);
    RunKeepsInv(w, steps);
  }

  lemma FiredStepKeepsFiring(w: World, step: Step)
    requires Inv(w) && Enabled(w, step) && w.fired.Some?
    ensures Apply(w, step).fired == w.fired && Apply(w, step).taken == w.taken
  {
    hide Below, AtMost, SeenIn, Swallowed, InStep, Verbatim;
  }

  /** A connection fires at most once: after it, nothing more is read from the client. */
  lemma {:induction false} FiringIsFinal(w: World, steps: seq<Step>)
    requires Inv(w) && IsRun(w, steps) && w.fired.Some?
    ensures After(w, steps).fired == w.fired && After(w, steps).taken == w.taken
    decreases |steps|
  {
    hide Inv, Enabled, Apply;
    if steps != [] {
      FiredStepKeepsFiring(w, steps[0]);
      StepKeepsInv(w, steps[0]);
      FiringIsFinal(Apply(w, steps[0]), steps[1..]);
    }
  }

  // ------------------------------------------------------ holding both sockets open

  /**
   The server owes nothing when the failpoint fires, and answers the COMMIT only once it
   has it whole: what a synchronous client's connection looks like.
   */
  ghost predicate QuietStep(w: World, step: Step) {
    match step
    case ReadClient(_, fire) => fire.Some? ==> w.s2c == Waiting && w.fetched == |w.emitted|
    case Emit(mark) => w.fired.Some? ==> mark >= w.fired.value.end
    case _ => true
  }

  ghost predicate IsQuietRun(w: World, steps: seq<Step>)
    decreases |steps|
  {
    steps == [] || (Enabled(w, steps[0]) && QuietStep(w, steps[0]) && IsQuietRun(Apply(w, steps[0]), steps[1..]))
  }

  ghost predicate AtLeast(marks: seq<nat>, bound: nat) {
    forall i :: 0 <= i < |marks| ==> marks[i] >= bound
  }

  /** What the server has sent since the firing are answers to the COMMIT. */
  ghost predicate OnlyAnswers(w: World) {
    w.fired.Some? ==>
      && w.fetched <= |w.emitted| && AtLeast(w.emitted[w.fetched..], w.fired.value.end)
      && (w.s2c.HasRead? ==> w.s2c.chunk != [] && AtLeast(w.s2c.chunk, w.fired.value.end))
      && !w.s2c.Passing?
      && (w.s2c.SawSwallow? && Holds(w.fired) ==> w.hold)
  }

  /** An answer can only be read once the server has the COMMIT, and the flags are up by then. */
  lemma AnswerMeansHeld(w: World)
    requires Inv(w) && OnlyAnswers(w) && w.fired.Some? && w.s2c.HasRead?
    ensures w.swallow && (Holds(w.fired) ==> w.hold)
  {
    hide SeenIn, Verbatim, InStep, Complete;
    assert w.s2c.chunk[0] >= w.fired.value.end;
  }

  lemma QuietReadKept(w: World, n: nat)
    requires Inv(w) && OnlyAnswers(w) && Enabled(w, ReadServer(n))
    ensures OnlyAnswers(Apply(w, ReadServer(n)))
  {
    hide SeenIn, Verbatim, InStep, Complete, Swallowed, FlagsFirst;
    assert w.emitted[w.fetched..][n..] == w.emitted[w.fetched + n..];
    assert w.emitted[w.fetched..][..n] == w.emitted[w.fetched..w.fetched + n];
  }

  lemma QuietKept(w: World, step: Step)
    requires Inv(w) && OnlyAnswers(w) && Enabled(w, step) && QuietStep(w, step)
    ensures OnlyAnswers(Apply(w, step))
  {
    hide SeenIn, Verbatim, InStep, Complete, Swallowed;
    if w.fired.Some? && w.s2c.HasRead? {
      AnswerMeansHeld(w);
    }
    match step {
      case ReadServer(n) => QuietReadKept(w, n);
      case Emit(mark) =>
        assert w.fetched <= |w.emitted| ==> (w.emitted + [mark])[w.fetched..] == w.emitted[w.fetched..] + [mark];
      case _ =>
    }
  }

  lemma {:induction false} QuietRunKept(w: World, steps: seq<Step>)
    requires Inv(w) && OnlyAnswers(w) && IsQuietRun(w, steps)
    ensures IsRun(w, steps) && Inv(After(w, steps)) && OnlyAnswers(After(w, steps))
    decreases |steps|
  {
    hide Inv, Enabled, Apply, OnlyAnswers, QuietStep;
    if steps != [] {
      QuietKept(w, steps[0]);
      StepKeepsInv(w, steps[0]);
      QuietRunKept(Apply(w, steps[0]), steps[1..]);
    }
  }

  /**
   With the holding action, the pump that swallows the answer ends the connection instead of
   holding it open exactly when it looks at `hold` between the two flags going up.
   */
  lemma HoldIsCutShortExactlyBetweenTheFlags(w: World, steps: seq<Step>)
    requires Initial(w) && IsRun(w, steps)
    requires Holds(After(w, steps).fired) && Enabled(After(w, steps), TestHold)
    ensures var last := After(w, steps);
            Apply(last, TestHold).s2c == Closing <==> last.c2s.SwallowUp?
  {
    hide InStep, Swallowed, Complete;
    InitialInv(w);
    RunKeepsInv(w, steps);
  }

  /**
   On a connection that is quiet until the server has the COMMIT it never looks then: the
   connection is held until the sleeper wakes.
   */
  lemma HoldHolds(w: World, steps: seq<Step>)
    requires Initial(w) && IsQuietRun(w, steps)
    ensures IsRun(w, steps)
    ensures var last := After(w, steps);
            Holds(last.fired) && Enabled(last, TestHold) ==>
              !last.c2s.SwallowUp? && Apply(last, TestHold).s2c == Waiting
  {
    hide InStep, Swallowed, Complete, Verbatim;
    InitialInv(w);
    QuietRunKept(w, steps);
    var last := After(w, steps);
    if Holds(last.fired) && Enabled(last, TestHold) {
      HoldIsCutShortExactlyBetweenTheFlags(w, steps);
    }
  }

  /**
   Otherwise it can: an earlier answer still under way is read between the two flags going
   up, and the connection is closed with the COMMIT not even forwarded.
   */
  lemma HoldCutShort(client: seq<byte>, end: nat) returns (w: World, steps: seq<Step>)
    requires end <= |client| && end in SeenIn(client)
    ensures Initial(w) && IsRun(w, steps) && w.client == client
    ensures var last := After(w, steps);
            && last.fired == Some(Firing(end, DropAndHoldAfterForward))
            && last.closed && last.c2s.SwallowUp? && last.toServer == []
  {
    hide SeenIn, IsRun, After;
    assert client[..|client|] == client;
    EndsArePositive(client, end);
    w := World(client, 0, [], [], 0, [], false, false, false, Reading, Waiting, None, false);
    var read := ReadClient(|client|, Some(Firing(end, DropAndHoldAfterForward)));
    var w1 := Apply(w, Emit(0));
    var w2 := Apply(w1, ReadServer(1));
    var w3 := Apply(w2, read);
    var w4 := Apply(w3, RaiseSwallow);
    var w5 := Apply(w4, TestSwallow);
    var w6 := Apply(w5, TestHold);
    var w7 := Apply(w6, CloseFromServer);
    EmptyRun(w7);
    steps := StepFirst(w6, CloseFromServer, []);
    steps := StepFirst(w5, TestHold, steps);
    steps := StepFirst(w4, TestSwallow, steps);
    steps := StepFirst(w3, RaiseSwallow, steps);
    steps := StepFirst(w2, read, steps);
    steps := StepFirst(w1, ReadServer(1), steps);
    steps := StepFirst(w, Emit(0), steps);
  }

  lemma EmptyRun(w: World)
    ensures IsRun(w, []) && After(w, []) == w
  {}

  lemma StepFirst(w: World, step: Step, rest: seq<Step>) returns (steps: seq<Step>)
    requires Enabled(w, step) && IsRun(Apply(w, step), rest)
    ensures IsRun(w, steps) && After(w, steps) == After(Apply(w, step), rest)
  {
    hide Enabled, Apply;
    steps := [step] + rest;
  }

  lemma {:induction false} ThenRun(w: World, a: seq<Step>, b: seq<Step>)
    requires IsRun(w, a) && IsRun(After(w, a), b)
    ensures IsRun(w, a + b) && After(w, a + b) == After(After(w, a), b)
    decreases |a|
  {
    hide Enabled, Apply;
    if a == [] {
      assert a + b == b;
    } else {
      ThenRun(Apply(w, a[0]), a[1..], b);
      assert (a + b)[1..] == a[1..] + b;
    }
  }

  lemma EndsArePositive(client: seq<byte>, end: nat)
    requires end in SeenIn(client)
    ensures end > 0
  {
    CommitEndsIncrease(Packets(client), 0, MAX_OBSERVE_PAYLOAD);
  }
}
