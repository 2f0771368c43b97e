/** Seeding of the default chat rooms after a migration (core/signals.py). */
module Signals {
  import opened Models

  /** The application whose migrations trigger the seeding. */
  const CoreApp: string := "core"

  /** The room table after the handler runs for a sender. */
  function SeededRooms(rooms: set<string>, sender: string): (r: set<string>)
    ensures sender != CoreApp ==> r == rooms
    ensures sender == CoreApp ==> forall n :: n in r <==> n in rooms || n in DefaultRoomNames
  {
    if sender == CoreApp then rooms + set n | n in DefaultRoomNames else rooms
  }

  /** Running the handler a second time adds nothing, and existing rooms are always kept. */
  lemma SeedingIsIdempotent(rooms: set<string>, sender: string)
    ensures SeededRooms(SeededRooms(rooms, sender), sender) == SeededRooms(rooms, sender)
    ensures rooms <= SeededRooms(rooms, sender)
  {
  }

  /** The post-migrate handler: for the core application, get-or-create each default room in turn. */
  method CreateDefaultChatrooms(db: Database, sender: string)
    requires db.Valid()
    modifies db`rooms
    ensures db.Valid()
    ensures db.rooms == SeededRooms(old(db.rooms), sender)
  {
    if sender == CoreApp {
      var defaultRooms := DefaultRoomNames;
      for i := 0 to |defaultRooms|
        invariant db.Valid()
        invariant db.rooms == old(db.rooms) + set k | 0 <= k < i :: defaultRooms[k]
      {
        var _ := db.GetOrCreateRoom(defaultRooms[i]);
      }
      assert (set k | 0 <= k < |defaultRooms| :: defaultRooms[k]) == set n | n in DefaultRoomNames;
    }
  }
}
