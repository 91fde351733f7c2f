/**
 * The favorites view (src/pages/FavoritesPage.jsx): it loads the signed-in user's list
 * from storage, resolves those ids once, and on every toggle rewrites the stored list
 * and prunes the dogs on display. The resolve call is a parameter.
 */
module FavoritesPage {
  import opened Wrappers
  import opened Domain
  import opened Seqs
  import opened FavoriteList
  import opened Storage

  /** `fetch` of `POST /dogs` followed by `response.json()`: the body, or a thrown error. */
  datatype FetchReply = Fetched(dogs: seq<Dog>) | FetchFailed

  /** `dogs.filter(dog => ids.includes(dog.id))`. */
  function KeepListed(dogs: seq<Dog>, ids: seq<DogId>): (r: seq<Dog>)
    ensures IsSubseq(r, dogs)
    ensures forall d :: d in r <==> d in dogs && d.id in ids
    ensures forall d :: multiset(r)[d] == if d.id in ids then multiset(dogs)[d] else 0
  {
    if dogs == [] then []
    else
      var rest := KeepListed(dogs[1..], ids);
      assert dogs == [dogs[0]] + dogs[1..];
      assert multiset(dogs) == multiset{dogs[0]} + multiset(dogs[1..]);
      assert forall d :: d in dogs <==> d == dogs[0] || d in dogs[1..];
      if dogs[0].id in ids then
        assert multiset([dogs[0]] + rest) == multiset{dogs[0]} + multiset(rest);
        [dogs[0]] + rest
      else
        rest
  }

  class FavoritesView {
    const user: Option<User>
    const store: LocalStorage

    var favorites: seq<DogId>
    var dogs: seq<Dog>

    /** The favorites in memory are the list stored under the user's email. */
    ghost predicate InSync()
      reads this, store
    {
      SyncedWith(store.entries, user, favorites)
    }

    constructor (user: Option<User>, store: LocalStorage)
      ensures this.user == user && this.store == store
      ensures favorites == [] && dogs == []
    {
      this.user := user;
      this.store := store;
      favorites := [];
      dogs := [];
    }

    /**
     * The load effect: without a user nothing happens. Otherwise favorites become the
     * stored list ([] when there is none) and, unless that list is empty, exactly those
     * ids are sent to the resolve call (`requested`), whose dogs are displayed when it
     * does not throw; a thrown error is only logged.
     */
    method LoadFavorites(fetch: seq<DogId> -> FetchReply) returns (requested: Option<seq<DogId>>)
      modifies this
      ensures user.None? ==> requested.None? && unchanged(this)
      ensures user.Some? ==> favorites == Lookup(store.entries, user.value.email) && InSync()
      ensures user.Some? && user.value.email !in store.entries ==> favorites == []
      ensures requested.Some? <==> user.Some? && favorites != []
      ensures requested.Some? ==> requested.value == favorites
      ensures requested.Some? && fetch(favorites).Fetched? ==> dogs == fetch(favorites).dogs
      ensures requested.None? || fetch(favorites).FetchFailed? ==> dogs == old(dogs)
    {
      requested := None;
      if user.None? {
        return;
      }
      var userFavorites := Lookup(store.entries, user.value.email);
      favorites := userFavorites;
      if |userFavorites| == 0 {
        return;
      }
      requested := Some(userFavorites);
      var reply := fetch(userFavorites);
      if reply.Fetched? {
        dogs := reply.dogs;
      }
    }

    /**
     * handleToggleFavorite: toggle the list read from storage (not the in-memory one),
     * store the result under the user's email, make it the in-memory list and keep on
     * display only the dogs whose ids it lists. The handler reads `user.email`, so it
     * needs a signed-in user; the page shows no dog cards without one.
     */
    method ToggleFavorite(dogId: DogId)
      requires user.Some?
      modifies this, store
      ensures var updated := Toggle(Lookup(old(store.entries), user.value.email), dogId);
        && store.entries == old(store.entries)[user.value.email := updated]
        && favorites == updated
        && dogs == KeepListed(old(dogs), updated)
      ensures InSync()
      ensures IsSubseq(dogs, old(dogs))
      ensures forall d :: d in dogs ==> d.id in favorites
      ensures dogId !in favorites ==> forall d :: d in dogs ==> d.id != dogId
    {
      var userFavorites := Lookup(store.entries, user.value.email);
      var updated := Toggle(userFavorites, dogId);
      store.entries := store.entries[user.value.email := updated];
      favorites := updated;
      dogs := KeepListed(dogs, updated);
    }
  }
}
