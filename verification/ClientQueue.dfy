/** The device client's bounded high-priority queue and its session flags. */
module ClientQueue {
  import opened Pcm
  import G = Gateway

  const CAPACITY: nat := 64

  /**
   A queued frame; session is the one whose connection let it in, late says that this session's
   queue was drained by then.
   */
  datatype Item = Item(frame: G.Frame, session: nat, late: bool)

  datatype Link = Link(conn: bool, active: bool, high: seq<Item>)

  predicate Room(l: Link) {
    |l.high| < CAPACITY
  }

  function Pushed(l: Link, i: Item): Link {
    if Room(l) then l.(high := l.high + [i]) else l
  }

  function Queued(l: Link, i: Item): Link {
    if l.conn then Pushed(l, i) else l
  }

  function Released(l: Link): Link {
    l.(active := false)
  }

  function Linked(l: Link, connected: bool): Link {
    l.(conn := connected)
  }

  /** A turn may be reserved while connected, alone, and with room for its three control frames. */
  predicate Reservable(l: Link) {
    l.conn && !l.active && CAPACITY - |l.high| >= 3
  }

  class Client {
    var conn: bool
    var active: bool
    var high: seq<Item>

    ghost predicate Valid()
      reads this
    {
      |high| <= CAPACITY
    }

    function Abs(): Link
      reads this
    {
      Link(conn, active, high)
    }

    constructor ()
      ensures Valid() && Abs() == Link(false, false, [])
    {
      conn, active, high := false, false, [];
    }

    method Reserve() returns (ok: bool)
      requires Valid()
      modifies this`active
      ensures Valid() && ok == Reservable(old(Abs()))
      ensures ok <==> old(conn && !active && |high| + 3 <= 64)
      ensures Abs() == if ok then old(Abs()).(active := true) else old(Abs())
    {
      if !conn || active || CAPACITY - |high| < 3 {
        return false;
      }
      active := true;
      return true;
    }

    method Release()
      modifies this`active
      ensures Abs() == Released(old(Abs())) && !active && conn == old(conn) && high == old(high)
    {
      active := false;
    }

    /** The second half of a control frame's way in: a full queue refuses it, a lost connection no longer does. */
    method Push(i: Item) returns (ok: bool)
      requires Valid()
      modifies this`high
      ensures Valid() && ok == old(Room(Abs())) && Abs() == Pushed(old(Abs()), i)
      ensures ok <==> old(|high|) < 64
      ensures high == if ok then old(high) + [i] else old(high)
    {
      if |high| >= CAPACITY {
        return false;
      }
      high := high + [i];
      return true;
    }

    /** Both halves with nothing in between. Control frames never wait: without a session or room they are refused. */
    method Enqueue(i: Item) returns (ok: bool)
      requires Valid()
      modifies this`high
      ensures Valid() && ok == old(conn && Room(Abs())) && Abs() == Queued(old(Abs()), i)
      ensures ok <==> old(conn && |high| < 64)
      ensures high == if ok then old(high) + [i] else old(high)
    {
      if !conn {
        return false;
      }
      ok := Push(i);
    }

    method TakeHigh() returns (i: Item)
      requires Valid() && high != []
      modifies this`high
      ensures Valid() && old(high) == [i] + high && Abs() == old(Abs()).(high := high)
    {
      i := high[0];
      high := high[1..];
    }

    method DrainHigh()
      requires Valid()
      modifies this`high
      ensures Valid() && Abs() == old(Abs()).(high := [])
    {
      while |high| > 0
        invariant Valid()
      {
        high := high[1..];
      }
    }

    method SetConnection(connected: bool)
      requires Valid()
      modifies this`conn
      ensures Valid() && Abs() == Linked(old(Abs()), connected)
      ensures conn == connected && active == old(active) && high == old(high)
    {
      conn := connected;
    }
  }
}
