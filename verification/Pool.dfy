/**
 The global pool of idle connections. Socket addresses are numbers in their own order; connections are numbered as
 dialled. No sender in the pool is ever destroyed by the pool: what is removed or overwritten here is leaked.
 */
module Pool {
  import opened Basics

  type Addr = int

  type ConnId = nat

  /** Address dialled, then peer address, then connection. */
  type Slots = map<Addr, map<Addr, ConnId>>

  /** The key `pop_back` takes. */
  predicate IsGreatest(keys: set<Addr>, k: Addr) {
    k in keys && forall k' | k' in keys :: k' <= k
  }

  lemma {:induction false} GreatestExists(keys: set<Addr>)
    requires keys != {}
    ensures exists k :: IsGreatest(keys, k)
    decreases |keys|
  {
    assert (forall x :: x !in keys) ==> keys == {};
    var x :| x in keys;
    if keys == {x} {
      assert IsGreatest(keys, x);
    } else {
      var rest := keys - {x};
      assert keys == rest + {x};
      GreatestExists(rest);
      var k :| IsGreatest(rest, k);
      assert IsGreatest(keys, if x <= k then k else x);
    }
  }

  ghost function Greatest(keys: set<Addr>): (k: Addr)
    requires keys != {}
    ensures IsGreatest(keys, k)
  {
    GreatestExists(keys);
    var k :| IsGreatest(keys, k); k
  }

  predicate HasSlot(slots: Slots, a: Addr, k: Addr) {
    a in slots && k in slots[a]
  }

  /** Put a connection under its key; whatever was there before is leaked. */
  function Inserted(slots: Slots, a: Addr, k: Addr, c: ConnId): Slots {
    slots[a := (if a in slots then slots[a] else map[])[k := c]]
  }

  function WithoutSlot(slots: Slots, a: Addr, k: Addr): Slots {
    if a in slots then slots[a := slots[a] - {k}] else slots
  }

  /** What a removal of these slots leaves behind, since nothing runs the destructor of a sender. */
  function Leaks(slots: Slots, a: Addr, keys: set<Addr>, clock: nat): map<(nat, Addr), ConnId> {
    if a in slots then map k | k in slots[a] && k in keys :: (clock, k) := slots[a][k] else map[]
  }

  function AllLeaks(slots: Slots, a: Addr, clock: nat): map<(nat, Addr), ConnId> {
    if a in slots then Leaks(slots, a, slots[a].Keys, clock) else map[]
  }

  // ---- The four operations, slot by slot -----------------------------------------------------------------------

  /** All slots but those of this address and key are as before. */
  ghost predicate SameBut(before: Slots, after: Slots, a: Addr, keys: set<Addr>) {
    forall a', k :: a' != a || k !in keys ==>
      && (HasSlot(after, a', k) <==> HasSlot(before, a', k))
      && (HasSlot(after, a', k) ==> after[a'][k] == before[a'][k])
  }

  /** A connection was taken from the slot with the greatest peer address; there was none only if there is no slot. */
  ghost predicate Popped(before: Slots, after: Slots, a: Addr, found: Option<(Addr, ConnId)>) {
    && after.Keys == before.Keys
    && match found {
         case None => after == before && forall k :: !HasSlot(before, a, k)
         case Some((k, c)) =>
           && HasSlot(before, a, k) && before[a][k] == c && (forall k' | HasSlot(before, a, k') :: k' <= k)
           && !HasSlot(after, a, k) && SameBut(before, after, a, {k})
       }
  }

  ghost predicate Returned(before: Slots, after: Slots, a: Addr, k: Addr, c: ConnId) {
    && after.Keys == before.Keys + {a} && HasSlot(after, a, k) && after[a][k] == c && SameBut(before, after, a, {k})
  }

  /** One slot was emptied; `last` tells whether the address is left with no slot, but still there. */
  ghost predicate SlotCleaned(before: Slots, after: Slots, a: Addr, k: Addr, last: bool) {
    && after.Keys == before.Keys && !HasSlot(after, a, k) && SameBut(before, after, a, {k})
    && (last <==> a in after && forall k' :: !HasSlot(after, a, k'))
  }

  lemma NoSlotLeft(slots: Slots, a: Addr)
    requires a in slots
    ensures slots[a] == map[] <==> forall k :: !HasSlot(slots, a, k)
  {
    var inner := slots[a];
    assert (forall k :: k !in inner) ==> inner == map[];
    assert forall k :: HasSlot(slots, a, k) <==> k in inner;
  }

  ghost predicate KeyCleaned(before: Slots, after: Slots, a: Addr) {
    after.Keys == before.Keys - {a} && forall a' | a' in after :: after[a'] == before[a']
  }

  /** The four atomic operations on the pool. */
  class SharedPool {
    var slots: Slots

    constructor ()
      ensures slots == map[]
    {
      slots := map[];
    }

    /** Take the connection with the greatest peer address. An emptied inner map stays behind. */
    method CachedConn(addr: Addr) returns (found: Option<(Addr, ConnId)>)
      modifies this
      ensures found.None? <==> addr !in old(slots) || old(slots)[addr] == map[]
      ensures found.None? ==> slots == old(slots)
      ensures Popped(old(slots), slots, addr, found)
      ensures found.Some? ==>
                var (k, c) := found.value;
                && IsGreatest(old(slots)[addr].Keys, k) && old(slots)[addr][k] == c
                && slots == WithoutSlot(old(slots), addr, k)
    {
      if addr !in slots || slots[addr] == map[] {
        return None;
      }
      GreatestExists(slots[addr].Keys);
      var k :| IsGreatest(slots[addr].Keys, k);
      found := Some((k, slots[addr][k]));
      slots := slots[addr := slots[addr] - {k}];
    }

    /** `Drop for Body`. */
    method Insert(addr: Addr, peer: Addr, conn: ConnId)
      modifies this
      ensures slots == Inserted(old(slots), addr, peer, conn)
      ensures Returned(old(slots), slots, addr, peer, conn)
    {
      if addr !in slots {
        slots := slots[addr := map[]];
      }
      var inner: map<Addr, ConnId> := slots[addr];
      slots := slots[addr := inner[peer := conn]];
    }

    /** First cleanup step: drop the slot, whosever it is, and see whether the inner map is empty. */
    method CleanSlot(addr: Addr, peer: Addr) returns (removeKey: bool)
      modifies this
      ensures slots == WithoutSlot(old(slots), addr, peer)
      ensures removeKey <==> addr in slots && slots[addr] == map[]
      ensures SlotCleaned(old(slots), slots, addr, peer, removeKey)
    {
      if addr in slots {
        slots := slots[addr := slots[addr] - {peer}];
        removeKey := slots[addr] == map[];
        NoSlotLeft(slots, addr);
      } else {
        removeKey := false;
      }
    }

    /** Second cleanup step, after the guard of the first was released: drop the inner map, empty or not. */
    method CleanKey(addr: Addr)
      modifies this
      ensures slots == old(slots) - {addr}
      ensures KeyCleaned(old(slots), slots, addr)
    {
      slots := slots - {addr};
    }
  }
}
