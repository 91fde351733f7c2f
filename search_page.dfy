/**
 * The search view (src/pages/SearchPage.jsx): its favorites list with write-through to
 * localStorage, the query it sends to the search endpoint, the pagination guard and the
 * state changes of one fetchDogs call. The two remote calls are parameters.
 */
module SearchPage {
  import opened Wrappers
  import opened Domain
  import opened FavoriteList
  import opened Storage
  import opened UrlSearchParams
  import opened Service

  /** Every search asks for pages of 24 dogs. */
  const PageSize := "24"
  /** The error shown when a failed call carries no message of its own. */
  const FetchDogsFallback := "Error fetching dogs"

  /**
   * buildQueryParams: start from the pairs read from the page token, then set `breeds`
   * (only when a breed is selected), `size` and `sort`.
   */
  function BuildQueryParams(tokenParams: seq<Param>, selectedBreed: string,
                            sortField: string, sortDirection: string): (r: seq<Param>)
    ensures Get(r, "sort") == Some(sortField + ":" + sortDirection)
  {
    var withBreed := if selectedBreed != "" then Set(tokenParams, "breeds", selectedBreed) else tokenParams;
    var withSize := Set(withBreed, "size", PageSize);
    Set(withSize, "sort", sortField + ":" + sortDirection)
  }

  /** The pairs other than `breeds`, `size` and `sort`, in order. */
  function OtherParams(ps: seq<Param>): seq<Param> {
    Without(Without(Without(ps, "sort"), "size"), "breeds")
  }

  /**
   * The query always carries exactly one `size=24` and one `sort=<field>:<direction>`;
   * it carries exactly one `breeds=<selected>` when a breed is selected and otherwise
   * whatever the token had; every other pair of the token is kept, in order.
   */
  lemma QueryParamsSpec(tokenParams: seq<Param>, selectedBreed: string, sortField: string, sortDirection: string)
    ensures var r := BuildQueryParams(tokenParams, selectedBreed, sortField, sortDirection);
      && Get(r, "size") == Some(PageSize) && Occurrences(r, "size") == 1
      && Get(r, "sort") == Some(sortField + ":" + sortDirection) && Occurrences(r, "sort") == 1
      && (selectedBreed != "" ==> Get(r, "breeds") == Some(selectedBreed) && Occurrences(r, "breeds") == 1)
      && (selectedBreed == "" ==> Get(r, "breeds") == Get(tokenParams, "breeds")
                                  && Occurrences(r, "breeds") == Occurrences(tokenParams, "breeds"))
      && OtherParams(r) == OtherParams(tokenParams)
  {
    var p1 := if selectedBreed != "" then Set(tokenParams, "breeds", selectedBreed) else tokenParams;
    var p2 := Set(p1, "size", PageSize);
    var r := Set(p2, "sort", sortField + ":" + sortDirection);
    if selectedBreed != "" {
      SetSpec(tokenParams, "breeds", selectedBreed);
    }
    SetSpec(p1, "size", PageSize);
    SetSpec(p2, "sort", sortField + ":" + sortDirection);
    SetOther(p2, "sort", sortField + ":" + sortDirection, "size");
    SetOther(p2, "sort", sortField + ":" + sortDirection, "breeds");
    SetOther(p1, "size", PageSize, "breeds");
    // the pairs with other names
    WithoutCommutes(p2, "sort", "size");
    WithoutCommutes(p1, "sort", "size");
    WithoutCommutes(Without(p1, "sort"), "size", "breeds");
    WithoutCommutes(p1, "sort", "breeds");
    WithoutCommutes(Without(tokenParams, "sort"), "size", "breeds");
    WithoutCommutes(tokenParams, "sort", "breeds");
    assert Without(Without(r, "sort"), "size") == Without(Without(p1, "sort"), "size");
    assert OtherParams(r) == OtherParams(p1);
  }

  /** The fields one fetchDogs call writes, as one value. */
  datatype Listing = Listing(isLoading: bool, error: Option<string>, next: Option<string>,
                             prev: Option<string>, dogs: seq<Dog>)

  /** Both remote calls of a fetch succeeded. */
  predicate FetchSucceeded(found: SearchReply, resolve: seq<DogId> -> ResolveReply) {
    found.SearchOk? && resolve(found.resultIds).Resolved?
  }

  /**
   * The listing once a fetchDogs call has settled, given the search reply and the
   * resolve call. On success the page is installed from the two replies; on failure
   * the error is set and the dogs are kept, with the tokens cleared only when the call
   * asked for a pagination reset.
   */
  function AfterFetch(before: Listing, resetPagination: bool, found: SearchReply,
                      resolve: seq<DogId> -> ResolveReply): (after: Listing)
    ensures !after.isLoading
    ensures after.error.None? <==> FetchSucceeded(found, resolve)
    ensures after.error.Some? ==> after.error.value != "" && after.dogs == before.dogs
    ensures after.error.Some? && !resetPagination ==> after.next == before.next && after.prev == before.prev
  {
    if FetchSucceeded(found, resolve) then
      Listing(false, None, found.next, found.prev, resolve(found.resultIds).dogs)
    else
      var message := if found.SearchFailed? then found.message else resolve(found.resultIds).message;
      Listing(false, Some(ErrorText(message, FetchDogsFallback)),
              if resetPagination then None else before.next,
              if resetPagination then None else before.prev,
              before.dogs)
  }

  /** What `new URLSearchParams(pageQuery)` reads: a null query is stringified to "null". */
  function QueryText(pageQuery: Option<string>): (r: string)
    ensures pageQuery.Some? ==> r == pageQuery.value
    ensures r == "null" <==> pageQuery == None || pageQuery == Some("null")
  {
    if pageQuery.Some? then pageQuery.value else "null"
  }

  class SearchView {
    const user: Option<User>
    const store: LocalStorage

    var dogs: seq<Dog>
    var selectedBreed: string
    var isLoading: bool
    var error: Option<string>
    var favorites: seq<DogId>
    var next: Option<string>
    var prev: Option<string>
    var sortField: string
    var sortDirection: string
    /** How often the window was scrolled back to the top. */
    ghost var scrollResets: nat

    function Shown(): Listing
      reads this
    {
      Listing(isLoading, error, next, prev, dogs)
    }

    /** The favorites in memory are the list stored under the user's email. */
    ghost predicate InSync()
      reads this, store
    {
      SyncedWith(store.entries, user, favorites)
    }

    /** Mounting the view: favorites start as the stored list, or [] without a user. */
    constructor (user: Option<User>, store: LocalStorage)
      ensures this.user == user && this.store == store
      ensures user.None? ==> favorites == []
      ensures user.Some? && user.value.email !in store.entries ==> favorites == []
      ensures user.Some? && user.value.email in store.entries ==> favorites == store.entries[user.value.email]
      ensures InSync()
      ensures Shown() == Listing(false, None, None, None, [])
      ensures selectedBreed == "" && sortField == "breed" && sortDirection == "asc"
      ensures scrollResets == 0
    {
      this.user := user;
      this.store := store;
      dogs := [];
      selectedBreed := "";
      isLoading := false;
      error := None;
      favorites := if user.None? then [] else Lookup(store.entries, user.value.email);
      next := None;
      prev := None;
      sortField := "breed";
      sortDirection := "asc";
      scrollResets := 0;
    }

    /**
     * fetchDogs: mark loading, clear the error (and the page tokens on a reset), search
     * with the built query, resolve exactly the returned ids, install the page or record
     * the error, and finally stop loading. `sent` is the query sent to the search call
     * and `resolving` the ids sent to the resolve call, if it was made.
     */
    method FetchDogs(pageQuery: Option<string>, resetPagination: bool, parse: string -> seq<Param>,
                     search: seq<Param> -> SearchReply, resolve: seq<DogId> -> ResolveReply)
      returns (sent: seq<Param>, resolving: Option<seq<DogId>>)
      modifies this
      ensures sent == BuildQueryParams(parse(QueryText(pageQuery)), old(selectedBreed), old(sortField), old(sortDirection))
      ensures resolving == (if search(sent).SearchOk? then Some(search(sent).resultIds) else None)
      ensures Shown() == AfterFetch(old(Shown()), resetPagination, search(sent), resolve)
      ensures scrollResets == old(scrollResets) + (if FetchSucceeded(search(sent), resolve) then 1 else 0)
      ensures favorites == old(favorites) && selectedBreed == old(selectedBreed)
      ensures sortField == old(sortField) && sortDirection == old(sortDirection)
    {
      isLoading := true;
      error := None;
      if resetPagination {
        next := None;
        prev := None;
      }
      sent := BuildQueryParams(parse(QueryText(pageQuery)), selectedBreed, sortField, sortDirection);
      resolving := Settle(search(sent), resolve);
    }

    /**
     * The part of fetchDogs after the search reply arrives, with the error already
     * cleared: resolve the ids, then install the page or record the error.
     */
    method Settle(found: SearchReply, resolve: seq<DogId> -> ResolveReply) returns (resolving: Option<seq<DogId>>)
      requires error.None?
      modifies this
      ensures resolving == (if found.SearchOk? then Some(found.resultIds) else None)
      ensures Shown() == AfterFetch(old(Shown()), false, found, resolve)
      ensures scrollResets == old(scrollResets) + (if FetchSucceeded(found, resolve) then 1 else 0)
      ensures favorites == old(favorites) && selectedBreed == old(selectedBreed)
      ensures sortField == old(sortField) && sortDirection == old(sortDirection)
    {
      resolving := None;
      if found.SearchFailed? {
        error := Some(ErrorText(found.message, FetchDogsFallback));
      } else {
        resolving := Some(found.resultIds);
        var fetched := resolve(found.resultIds);
        if fetched.ResolveFailed? {
          error := Some(ErrorText(fetched.message, FetchDogsFallback));
        } else {
          dogs := fetched.dogs;
          next := found.next;
          prev := found.prev;
          scrollResets := scrollResets + 1;
        }
      }
      isLoading := false;
    }

    /**
     * handlePagination: a missing or empty token is a no-op; otherwise fetch the page
     * it names, keeping the current tokens until the fetch settles.
     */
    method HandlePagination(query: Option<string>, parse: string -> seq<Param>,
                            search: seq<Param> -> SearchReply, resolve: seq<DogId> -> ResolveReply)
      returns (sent: Option<seq<Param>>)
      modifies this
      ensures query.None? || query.value == "" ==> sent.None? && unchanged(this)
      ensures query.Some? && query.value != "" ==>
        && sent == Some(BuildQueryParams(parse(query.value), old(selectedBreed), old(sortField), old(sortDirection)))
        && Shown() == AfterFetch(old(Shown()), false, search(sent.value), resolve)
        && favorites == old(favorites) && selectedBreed == old(selectedBreed)
        && sortField == old(sortField) && sortDirection == old(sortDirection)
    {
      sent := None;
      if query.Some? && query.value != "" {
        var params, _ := FetchDogs(query, false, parse, search, resolve);
        sent := Some(params);
      }
    }

    /**
     * toggleFavorite: toggle in the in-memory list and, when a user is signed in, write
     * the new list to storage under their email; without a user storage is untouched.
     */
    method ToggleFavorite(dogId: DogId)
      modifies this, store
      ensures favorites == Toggle(old(favorites), dogId)
      ensures user.Some? ==> store.entries == old(store.entries)[user.value.email := favorites]
      ensures user.None? ==> store.entries == old(store.entries)
      ensures InSync()
      ensures Shown() == old(Shown()) && selectedBreed == old(selectedBreed)
      ensures sortField == old(sortField) && sortDirection == old(sortDirection)
    {
      var updated := Toggle(favorites, dogId);
      favorites := updated;
      if user.Some? {
        store.entries := store.entries[user.value.email := updated];
      }
    }
  }
}
