/**
 * The in-memory cache of the second service generation (back/cash/cache.go):
 * a map from order uid to order with Set, Get, GetAll, a bulk replacement
 * LoadFromSlice and Size.
 */
module CashCache {
  import opened Domain

  /** The map LoadFromSlice builds: each order in turn overwrites its uid's entry. */
  function FromSlice(s: seq<Order>): (m: map<string, Order>)
  {
    if s == [] then map[]
    else FromSlice(s[..|s| - 1])[s[|s| - 1].orderUid := s[|s| - 1]]
  }

  /** The uids occurring in `s`. */
  function Uids(s: seq<Order>): set<string> {
    set o | o in s :: o.orderUid
  }

  /** The keys of the rebuilt map are exactly the uids of the slice. */
  lemma {:induction false} FromSliceKeys(s: seq<Order>)
    ensures FromSlice(s).Keys == Uids(s)
  {
    if s != [] {
      var init := s[..|s| - 1];
      FromSliceKeys(init);
      assert s == init + [s[|s| - 1]];
      assert Uids(s) == Uids(init) + {s[|s| - 1].orderUid};
    }
  }

  /** For a uid that occurs more than once, the last occurrence wins. */
  lemma {:induction false} FromSliceLastWins(s: seq<Order>, i: nat)
    requires i < |s|
    requires forall j | i < j < |s| :: s[j].orderUid != s[i].orderUid
    ensures s[i].orderUid in FromSlice(s) && FromSlice(s)[s[i].orderUid] == s[i]
  {
    if i < |s| - 1 {
      var init := s[..|s| - 1];
      assert forall j | i < j < |init| :: init[j] == s[j];
      FromSliceLastWins(init, i);
      assert init[i] == s[i];
    }
  }

  /** The number of entries after a bulk load is the number of distinct uids. */
  lemma FromSliceSize(s: seq<Order>)
    ensures |FromSlice(s)| == |Uids(s)|
  {
    FromSliceKeys(s);
    assert |FromSlice(s).Keys| == |FromSlice(s)|;
  }

  class Cache {
    var orders: map<string, Order>

    /** New: an empty cache. */
    constructor ()
      ensures orders == map[]
    {
      orders := map[];
    }

    /** Set: add or overwrite the entry for the order's uid; other keys are untouched. */
    method Set(order: Order)
      modifies this
      ensures orders == old(orders)[order.orderUid := order]
    {
      orders := orders[order.orderUid := order];
    }

    /** Get: read-only; the stored order and true, or the zero order and false. */
    method Get(uid: string) returns (o: Order, found: bool)
      ensures found <==> uid in orders
      ensures found ==> o == orders[uid]
      ensures !found ==> o == ZeroOrder
    {
      if uid in orders {
        return orders[uid], true;
      }
      return ZeroOrder, false;
    }

    /**
     * GetAll: every stored order exactly once, in map iteration order. The
     * ghost `keys` lists the key each element was read from.
     */
    method GetAll() returns (result: seq<Order>, ghost keys: seq<string>)
      ensures |result| == |keys| == |orders|
      ensures forall i, j | 0 <= i < j < |keys| :: keys[i] != keys[j]
      ensures forall k :: k in orders <==> k in keys
      ensures forall i | 0 <= i < |keys| :: keys[i] in orders && result[i] == orders[keys[i]]
      ensures forall k | k in orders :: orders[k] in result
      ensures forall i | 0 <= i < |result| :: result[i] in orders.Values
    {
      result, keys := [], [];
      var pending := orders.Keys;
      while pending != {}
        invariant pending <= orders.Keys
        invariant |result| == |keys|
        invariant |keys| + |pending| == |orders.Keys|
        invariant forall i, j | 0 <= i < j < |keys| :: keys[i] != keys[j]
        invariant forall k :: k in keys <==> k in orders && k !in pending
        invariant forall i | 0 <= i < |keys| :: keys[i] in orders && result[i] == orders[keys[i]]
        decreases pending
      {
        var uid :| uid in pending;
        result := result + [orders[uid]];
        keys := keys + [uid];
        pending := pending - {uid};
      }
      forall k | k in orders
        ensures orders[k] in result
      {
        var i :| 0 <= i < |keys| && keys[i] == k;
      }
    }

    /** LoadFromSlice: the old contents are dropped and the slice is loaded in order. */
    method LoadFromSlice(s: seq<Order>)
      modifies this
      ensures orders == FromSlice(s)
      ensures orders.Keys == Uids(s)
    {
      orders := map[];
      var i := 0;
      while i < |s|
        invariant 0 <= i <= |s|
        invariant orders == FromSlice(s[..i])
      {
        assert s[..i + 1][..i] == s[..i];
        orders := orders[s[i].orderUid := s[i]];
        i := i + 1;
      }
      assert s[..|s|] == s;
      FromSliceKeys(s);
    }

    /** Size: the number of distinct keys stored. */
    method Size() returns (n: int)
      ensures n == |orders.Keys|
    {
      n := |orders|;
    }
  }
}
