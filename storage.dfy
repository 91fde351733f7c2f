/**
 * The browser's localStorage as both pages use it: one entry per user email holding that
 * user's favorite ids. The JSON text is not modelled; entries are already-decoded lists.
 * Both views hold a reference to the same store, as both pages share one localStorage.
 */
module Storage {
  import opened Wrappers
  import opened Domain

  class LocalStorage {
    var entries: map<string, seq<DogId>>

    constructor (initial: map<string, seq<DogId>>)
      ensures entries == initial
    {
      entries := initial;
    }
  }

  /** The list stored under `key`, or the empty list when there is no entry. */
  function Lookup(entries: map<string, seq<DogId>>, key: string): (r: seq<DogId>)
    ensures key !in entries ==> r == []
    ensures key in entries ==> r == entries[key]
  {
    if key in entries then entries[key] else []
  }

  /**
   * Reading back after `setItem`: the key just written reads as the list written, and
   * every other key reads as before.
   */
  lemma LookupAfterStore(entries: map<string, seq<DogId>>, key: string, list: seq<DogId>, other: string)
    ensures Lookup(entries[key := list], key) == list
    ensures other != key ==> Lookup(entries[key := list], other) == Lookup(entries, other)
  {
  }

  /**
   * Writing back what was read changes nothing a later read can see, and a second write
   * under the same key replaces the first.
   */
  lemma StoreOverwrites(entries: map<string, seq<DogId>>, key: string, first: seq<DogId>, second: seq<DogId>, other: string)
    ensures Lookup(entries[key := Lookup(entries, key)], other) == Lookup(entries, other)
    ensures entries[key := first][key := second] == entries[key := second]
  {
  }

  /** A view's favorites in memory are the list stored under its user's email. */
  ghost predicate SyncedWith(entries: map<string, seq<DogId>>, user: Option<User>, favorites: seq<DogId>) {
    user.Some? ==> Lookup(entries, user.value.email) == favorites
  }
}
