/** The single-connection source: its slot, and the slot's critical sections. */
module ManagedSlots {
  import opened Basics

  type Conn = nat

  datatype Slot = Slot(conn: Option<Conn>, closed: bool, watchToken: nat)

  datatype ManagedError = ManagedClosed | AcquireTimeout

  datatype Decision = GotConn(conn: Conn) | WasError(error: ManagedError) | MustWait

  function Decide(s: Slot, expired: bool): (Decision, Slot) {
    if s.closed then (WasError(ManagedClosed), s)
    else if expired then (WasError(AcquireTimeout), s)
    else match s.conn
      case Some(c) => (GotConn(c), s.(conn := None))
      case None => (MustWait, s)
  }

  function Put(s: Slot, conn: Conn): (Option<Conn>, Slot) {
    if s.closed then (Some(conn), s)
    else (None, s.(conn := Some(conn), watchToken := s.watchToken + 1))
  }

  function TakeIfToken(s: Slot, token: nat): (Option<Conn>, Slot) {
    if s.watchToken == token then (s.conn, s.(conn := None)) else (None, s)
  }

  class ManagedSlot {
    var conn: Option<Conn>
    var closed: bool
    var watchToken: nat
    var signals: nat

    ghost function View(): Slot
      reads this
    {
      Slot(conn, closed, watchToken)
    }

    constructor (seed: Conn)
      ensures View() == Slot(Some(seed), false, 0) && signals == 0
    {
      conn, closed, watchToken, signals := Some(seed), false, 0, 0;
    }

    /** One pass of the acquire loop, from holding the lock to leaving or parking. */
    method AcquirePass(expired: bool) returns (d: Decision)
      modifies this
      ensures (d, View()) == Decide(old(View()), expired) && signals == old(signals)
      ensures d == WasError(ManagedClosed) <==> old(closed)
      ensures d == WasError(AcquireTimeout) <==> !old(closed) && expired
      ensures d == MustWait <==> !old(closed) && !expired && old(conn) == None
      ensures d.GotConn? <==> !old(closed) && !expired && old(conn).Some?
      ensures d.GotConn? ==> old(conn) == Some(d.conn) && conn == None
      ensures !d.GotConn? ==> conn == old(conn)
      ensures closed == old(closed) && watchToken == old(watchToken)
    {
      if closed {
        return WasError(ManagedClosed);
      }
      if expired {
        return WasError(AcquireTimeout);
      }
      var taken := SlotTake();
      match taken {
        case Some(c) => d := GotConn(c);
        case None => d := MustWait;
      }
    }

    method SlotTake() returns (taken: Option<Conn>)
      modifies this`conn
      ensures taken == old(conn) && conn == None
    {
      taken := conn;
      conn := None;
    }

    method TakeIdleIfToken(token: nat) returns (taken: Option<Conn>)
      modifies this`conn
      ensures (taken, View()) == TakeIfToken(old(View()), token)
      ensures taken == (if old(watchToken) == token then old(conn) else None)
      ensures conn == (if old(watchToken) == token then None else old(conn))
      ensures View() == old(View()).(conn := conn)
    {
      if watchToken == token {
        taken := SlotTake();
      } else {
        taken := None;
      }
    }

    method SlotPutDecide(c: Conn) returns (toClose: Option<Conn>)
      modifies this
      ensures (toClose, View()) == Put(old(View()), c)
      ensures toClose == if old(closed) then Some(c) else None
      ensures if old(closed) then View() == old(View())
              else conn == Some(c) && watchToken == old(watchToken) + 1 && !closed
      ensures signals == old(signals) + if old(closed) then 0 else 1
    {
      if closed {
        toClose := Some(c);
      } else {
        conn := Some(c);
        watchToken := watchToken + 1;
        signals := signals + 1;
        toClose := None;
      }
    }

    method MarkClosed()
      modifies this`closed
      ensures View() == old(View()).(closed := true)
    {
      closed := true;
    }
  }
}
