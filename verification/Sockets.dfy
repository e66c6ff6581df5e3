/**
 A TCP stream as its callers meet it: the bytes the peer sends, how far they have been
 read, the bytes the peer's side has accepted, and an arbitrary schedule that decides how
 much each read and each write moves and which of them fail. Every theorem about a stream
 holds for every schedule.
 */
module Sockets {
  import opened Basics

  /** What one call may move. `Give(0)` on a read is an orderly end of stream; `Block` is a
      call that ran into its timeout and may be tried again. */
  datatype IoStep = Give(max: nat) | Block | Refuse

  /** The outcomes of successive calls; calls behind the end of the list are refused. */
  type Schedule = seq<IoStep>

  function StepAt(schedule: Schedule, k: nat): IoStep {
    if k < |schedule| then schedule[k] else Refuse
  }

  datatype StreamState = StreamState(
    incoming: seq<byte>,   // all the peer has sent or will send
    readPos: nat,          // how much of it has been read
    accepted: seq<byte>,   // what the peer's side has taken from us so far
    gives: Schedule, takes: Schedule, readAt: nat, writeAt: nat,
    isOpen: bool,
    closeFails: bool)      // closing the socket will report an error

  type Stream = s: StreamState | s.readPos <= |s.incoming|
    witness StreamState([], 0, [], [], [], 0, 0, true, false)

  datatype Moved = Moved(count: nat) | Failed(wouldBlock: bool)

  /**
   One read of at most `n` bytes: how many come in, namely those between the two read
   positions. With nothing to read the call ends in a timeout.
   */
  function ReadSome(s: Stream, n: nat): (r: (Moved, Stream))
    requires n > 0
    ensures r.0.Moved? ==> r.0.count <= n && r.1.readPos == s.readPos + r.0.count
  {
    var step := StepAt(s.gives, s.readAt);
    var after := s.(readAt := s.readAt + 1);
    if !s.isOpen || !step.Give? then (Failed(s.isOpen && step.Block?), after)
    else if step.max == 0 then (Moved(0), after)
    else if s.readPos == |s.incoming| then (Failed(true), after)
    else
      var k := Min(step.max, Min(n, |s.incoming| - s.readPos));
      (Moved(k), after.(readPos := s.readPos + k))
  }

  /** One write of `bytes`, of which the peer takes a prefix; a failed write takes none. */
  function WriteSome(s: Stream, bytes: seq<byte>): (r: (Moved, Stream))
    ensures r.0.Moved? ==> r.0.count <= |bytes|
  {
    var step := StepAt(s.takes, s.writeAt);
    var after := s.(writeAt := s.writeAt + 1);
    if !s.isOpen || !step.Give? then (Failed(s.isOpen && step.Block?), after)
    else
      var k := Min(step.max, |bytes|);
      (Moved(k), after.(accepted := s.accepted + bytes[..k]))
  }

  /** From here on every read gives something, as long as there is something to give. */
  ghost predicate KeepsGiving(s: Stream) {
    && s.isOpen
    && |s.gives| - s.readAt >= |s.incoming| - s.readPos
    && forall k :: s.readAt <= k < |s.gives| ==> s.gives[k].Give? && s.gives[k].max > 0
  }

  /** The next `n` bytes to be written find a peer that takes some at every call. */
  ghost predicate KeepsTaking(s: Stream, n: nat) {
    && s.isOpen
    && |s.takes| - s.writeAt >= n
    && forall k :: s.writeAt <= k < |s.takes| ==> s.takes[k].Give? && s.takes[k].max > 0
  }

  /** The library's stream object. */
  class TcpStream {
    var state: Stream

    constructor (incoming: seq<byte>, gives: Schedule, takes: Schedule, closeFails: bool)
      ensures state == StreamState(incoming, 0, [], gives, takes, 0, 0, true, closeFails)
    {
      state := StreamState(incoming, 0, [], gives, takes, 0, 0, true, closeFails);
    }

    method Read(n: nat) returns (moved: Moved, bytes: seq<byte>)
      requires n > 0
      modifies this
      ensures (moved, state) == ReadSome(old(state), n)
      ensures moved.Moved? ==> |bytes| == moved.count && bytes == state.incoming[old(state).readPos..state.readPos]
    {
      var (outcome, after) := ReadSome(state, n);
      moved, bytes := outcome, if outcome.Moved? then state.incoming[state.readPos..after.readPos] else [];
      state := after;
    }

    method Write(bytes: seq<byte>) returns (moved: Moved)
      modifies this
      ensures (moved, state) == WriteSome(old(state), bytes)
    {
      var (outcome, after) := WriteSome(state, bytes);
      moved, state := outcome, after;
    }

    /** Closes even when it reports an error. */
    method Close() returns (ok: bool)
      modifies this
      ensures state == old(state).(isOpen := false) && ok == !state.closeFails
    {
      state := state.(isOpen := false);
      ok := !state.closeFails;
    }
  }
}
