/**
 * The host memory store as `generateOutfit` uses it: an ordered log of
 * memories queried by room. `createMemory` stores a memory unless one with
 * the same id is already there; `removeMemory` drops the memory with that
 * id unless the call fails, failures being given as a set of ids.
 */
module Store {
  import opened Types
  import Seqs

  function Ids(store: seq<Memory>): (r: seq<Uuid>)
    ensures |r| == |store| && forall i :: 0 <= i < |store| ==> r[i] == store[i].id
  {
    seq(|store|, i requires 0 <= i < |store| => store[i].id)
  }

  lemma IdsSnoc(ms: seq<Memory>, m: Memory)
    ensures Ids(ms + [m]) == Ids(ms) + [m.id]
  {
    var l, r := Ids(ms + [m]), Ids(ms) + [m.id];
    assert forall k :: 0 <= k < |l| ==> l[k] == r[k];
  }

  /** No two memories of the store share an id. */
  predicate UniqueIds(store: seq<Memory>)
  {
    Seqs.Distinct(Ids(store))
  }

  function RoomIn(rooms: seq<Uuid>): Memory -> bool
  {
    (m: Memory) => m.roomId in rooms
  }

  /** `getMemoriesByRoomIds({ roomIds: rooms })`. */
  function InRooms(store: seq<Memory>, rooms: seq<Uuid>): seq<Memory>
  {
    Seqs.Filter(store, RoomIn(rooms))
  }

  lemma InRoomsMembers(store: seq<Memory>, rooms: seq<Uuid>)
    ensures forall m :: m in InRooms(store, rooms) <==> m in store && m.roomId in rooms
  {
    Seqs.FilterMembers(store, RoomIn(rooms));
  }

  /** `createMemory(m)`. */
  function Stored(store: seq<Memory>, m: Memory): seq<Memory>
  {
    if m.id in Ids(store) then store else store + [m]
  }

  /** `createMemory` for each memory of `ms`, in order. */
  function StoreAll(store: seq<Memory>, ms: seq<Memory>): seq<Memory>
  {
    if ms == [] then store else Stored(StoreAll(store, ms[..|ms| - 1]), ms[|ms| - 1])
  }

  /**
   * Storing keeps every memory already present, adds exactly the ids not
   * seen before, each with a memory of `ms`, and keeps ids unique.
   */
  lemma {:induction false} StoreAllSpec(store: seq<Memory>, ms: seq<Memory>)
    requires UniqueIds(store)
    ensures var r := StoreAll(store, ms);
      && UniqueIds(r)
      && |store| <= |r| && r[..|store|] == store
      && (forall id :: id in Ids(r) <==> id in Ids(store) || id in Ids(ms))
      && (forall m :: m in r ==> m in store || m in ms)
  {
    if ms != [] {
      var init, m := ms[..|ms| - 1], ms[|ms| - 1];
      StoreAllSpec(store, init);
      var p := StoreAll(store, init);
      assert ms == init + [m];
      if m.id !in Ids(p) {
        assert Ids(p + [m]) == Ids(p) + [m.id];
        assert (p + [m])[..|store|] == p[..|store|];
      }
    }
  }

  lemma {:induction false} StoreAllAppend(store: seq<Memory>, a: seq<Memory>, b: seq<Memory>)
    ensures StoreAll(store, a + b) == StoreAll(StoreAll(store, a), b)
  {
    if b == [] {
      assert a + b == a;
    } else {
      StoreAllAppend(store, a, b[..|b| - 1]);
      assert (a + b)[..|a + b| - 1] == a + b[..|b| - 1];
      assert (a + b)[|a + b| - 1] == b[|b| - 1];
    }
  }

  function IdIsNot(id: Uuid): Memory -> bool
  {
    (m: Memory) => m.id != id
  }

  /** `removeMemory(id)`; a call in `faults` throws, is caught, and removes nothing. */
  function RemoveOne(store: seq<Memory>, id: Uuid, faults: set<Uuid>): seq<Memory>
  {
    if id in faults then store else Seqs.Filter(store, IdIsNot(id))
  }

  /** `removeMemory` for each id of `ids`. */
  function RemoveAll(store: seq<Memory>, ids: seq<Uuid>, faults: set<Uuid>): seq<Memory>
  {
    if ids == [] then store else RemoveOne(RemoveAll(store, ids[..|ids| - 1], faults), ids[|ids| - 1], faults)
  }

  /** Exactly the memories whose id was removed without a fault are gone. */
  lemma {:induction false} RemoveAllMembers(store: seq<Memory>, ids: seq<Uuid>, faults: set<Uuid>)
    ensures forall m :: m in RemoveAll(store, ids, faults) <==> m in store && (m.id !in ids || m.id in faults)
  {
    if ids != [] {
      var init, id := ids[..|ids| - 1], ids[|ids| - 1];
      RemoveAllMembers(store, init, faults);
      Seqs.FilterMembers(RemoveAll(store, init, faults), IdIsNot(id));
      assert ids == init + [id];
    }
  }

  /** The ids of the memories of each room, room after room. */
  function RoomIds(store: seq<Memory>, rooms: seq<Uuid>): seq<Uuid>
  {
    if rooms == [] then [] else RoomIds(store, rooms[..|rooms| - 1]) + Ids(InRooms(store, [rooms[|rooms| - 1]]))
  }

  lemma {:induction false} RoomIdsMembers(store: seq<Memory>, rooms: seq<Uuid>)
    ensures forall id :: id in RoomIds(store, rooms) <==> exists m :: m in store && m.roomId in rooms && m.id == id
  {
    if rooms != [] {
      var init, r := rooms[..|rooms| - 1], rooms[|rooms| - 1];
      RoomIdsMembers(store, init);
      InRoomsMembers(store, [r]);
      assert rooms == init + [r];
      forall id
        ensures id in RoomIds(store, rooms) <==> exists m :: m in store && m.roomId in rooms && m.id == id
      {
        if id in Ids(InRooms(store, [r])) {
          var k :| 0 <= k < |InRooms(store, [r])| && Ids(InRooms(store, [r]))[k] == id;
          assert InRooms(store, [r])[k] in InRooms(store, [r]);
        }
        if exists m :: m in store && m.roomId in rooms && m.id == id {
          var m :| m in store && m.roomId in rooms && m.id == id;
          if m.roomId == r {
            var k := Seqs.FirstIndex(InRooms(store, [r]), m);
            assert Ids(InRooms(store, [r]))[k] == id;
          }
        }
      }
    }
  }

  /** In a store with unique ids, a memory outside `rooms` has an id no memory in `rooms` has. */
  lemma OtherRoomIdNotListed(store: seq<Memory>, rooms: seq<Uuid>, m: Memory)
    requires UniqueIds(store) && m in store && m.roomId !in rooms
    ensures m.id !in RoomIds(store, rooms)
  {
    RoomIdsMembers(store, rooms);
  }
}
