/**
 Leases on the event queue and on the VHCI callbacks (ble_transport.cpp, lines 68-104 and
 1914-1964): a counter whose top bit says that no more are given out.  Each method is one
 compare-and-swap loop or one atomic operation of the source.
 */
module HciLeases {

  const CLOSING := 0x8000_0000

  class LeaseCounter {
    var word: nat                  // the count, plus CLOSING
    ghost var holders: set<nat>    // who has a lease

    ghost predicate Valid()
      reads this
    {
      |holders| < CLOSING && (word == |holders| || word == CLOSING + |holders|)
    }

    ghost predicate Closed()
      reads this
    {
      word >= CLOSING
    }

    constructor ()
      ensures Valid() && Closed() && holders == {}
    {
      word, holders := CLOSING, {};
    }

    /** A lease is given out exactly if the counter is open and not at its limit. */
    method Acquire(ghost user: nat) returns (ok: bool)
      requires Valid() && user !in holders
      modifies this
      ensures Valid() && Closed() == old(Closed())
      ensures ok <==> !old(Closed()) && |old(holders)| < CLOSING - 1
      ensures holders == if ok then old(holders) + {user} else old(holders)
    {
      if word >= CLOSING || word % CLOSING == CLOSING - 1 {
        return false;
      }
      word, holders := word + 1, holders + {user};
      return true;
    }

    method Release(ghost user: nat)
      requires Valid() && user in holders
      modifies this
      ensures Valid() && Closed() == old(Closed()) && holders == old(holders) - {user}
    {
      word, holders := word - 1, holders - {user};
    }

    /** Closing takes nobody's lease away. */
    method Close()
      requires Valid()
      modifies `word
      ensures Valid() && Closed()
    {
      if word < CLOSING { word := word + CLOSING; }
    }

    /** What await_hci_event_users and close_and_await_vhci_users wait for. */
    method Drained() returns (none: bool)
      requires Valid()
      ensures none <==> holders == {}
    {
      none := word % CLOSING == 0;
      assert none ==> |holders| == 0;
    }

    /** Opening again succeeds exactly if the counter is closed and drained. */
    method Open() returns (ok: bool)
      requires Valid()
      modifies `word
      ensures Valid()
      ensures ok <==> old(Closed()) && holders == {}
      ensures Closed() == (old(Closed()) && !ok)
    {
      if word == CLOSING {
        assert |holders| == 0;
        word := 0;
        return true;
      }
      return false;
    }
  }
}
