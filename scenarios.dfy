/**
 * Client code that uses only the views' contracts: a user favorites two dogs on the
 * search view, the list survives a remount, and un-favoriting on the favorites view
 * prunes the display and the stored list.
 */
module Scenarios {
  import opened Wrappers
  import opened Domain
  import opened Storage
  import opened SearchPage
  import opened FavoritesPage
  import opened Service

  method FavoritesSurviveRemount() {
    var store := new LocalStorage(map[]);
    var user := Some(User("ada", "a@x.com"));
    var search := new SearchView(user, store);
    assert search.favorites == [];
    search.ToggleFavorite("3");
    search.ToggleFavorite("7");
    assert store.entries["a@x.com"] == ["3", "7"];

    var again := new SearchView(user, store);
    assert again.favorites == ["3", "7"];

    var favorites := new FavoritesView(user, store);
    var dog3 := Dog("3", "Rex", "Poodle", 4, "10001", "rex.jpg");
    var dog7 := Dog("7", "Ivy", "Pug", 2, "10002", "ivy.jpg");
    var requested := favorites.LoadFavorites(ids => Fetched([dog3, dog7]));
    assert requested == Some(["3", "7"]);
    assert favorites.dogs == [dog3, dog7];
    favorites.ToggleFavorite("3");
    assert store.entries["a@x.com"] == ["7"];
    assert dog3 !in favorites.dogs;
  }

  method SignedOutTogglesStayInMemory() {
    var store := new LocalStorage(map["a@x.com" := ["1"]]);
    var search := new SearchView(None, store);
    search.ToggleFavorite("1");
    assert search.favorites == ["1"];
    assert store.entries == map["a@x.com" := ["1"]];
  }

  method PagingAndSearch() {
    var store := new LocalStorage(map[]);
    var search := new SearchView(Some(User("ada", "a@x.com")), store);
    var dog := Dog("5", "Bo", "Poodle", 3, "10003", "bo.jpg");
    var sent, resolving := search.FetchDogs(None, false, t => [],
      ps => SearchOk(["5"], Some("from=24"), None), ids => Resolved([dog]));
    assert resolving == Some(["5"]);
    assert search.dogs == [dog] && search.next == Some("from=24") && !search.isLoading;
    var none := search.HandlePagination(search.prev, t => [],
      ps => SearchFailed(None), ids => ResolveFailed(None));
    assert none.None? && search.dogs == [dog];
    var paged := search.HandlePagination(search.next, t => [],
      ps => SearchFailed(None), ids => ResolveFailed(None));
    assert search.error == Some("Error fetching dogs") && search.dogs == [dog];
    assert search.next == Some("from=24");
  }
}
