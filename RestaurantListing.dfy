/** The restaurant listing page's search and cuisine filter
    (src/pages/RestaurantListingPage.tsx): two case-insensitive substring tests applied
    one after the other to the placeholder list, re-run whenever the search box or the
    active filter changes. */
module RestaurantListing {
  import opened Lists
  import opened Text

  datatype Restaurant = Restaurant(id: string, name: string, cuisine: string, rating: real, deliveryTime: string)

  const PlaceholderRestaurants: seq<Restaurant> := [
    Restaurant("1", "Pizza Palace", "Italian, Pizza", 4.5, "25-35 min"),
    Restaurant("2", "Sushi Central", "Japanese, Sushi", 4.8, "30-40 min"),
    Restaurant("3", "Burger Hub", "American, Burgers", 4.2, "20-30 min"),
    Restaurant("4", "Curry Corner", "Indian, Curry", 4.6, "35-45 min")
  ]

  /** The sentinel filter value; the comparison with it is case-sensitive. */
  const AllFilter: string := "All"

  /** `r.cuisine.toLowerCase().includes(filter.toLowerCase())`. */
  predicate MatchesCuisine(r: Restaurant, filter: string) {
    Includes(Lower(r.cuisine), Lower(filter))
  }

  /** The search test: the lower-cased term occurs in the lower-cased name or cuisine. */
  predicate MatchesSearch(r: Restaurant, term: string) {
    Includes(Lower(r.name), Lower(term)) || Includes(Lower(r.cuisine), Lower(term))
  }

  function CuisineTest(filter: string): Restaurant -> bool {
    (r: Restaurant) => MatchesCuisine(r, filter)
  }

  function SearchTest(term: string): Restaurant -> bool {
    (r: Restaurant) => MatchesSearch(r, term)
  }

  /** Whether `r` passes both active tests: the filter is inactive when it is exactly "All",
      the search when it is empty. */
  predicate Selected(r: Restaurant, search: string, filter: string) {
    (filter == AllFilter || MatchesCuisine(r, filter)) && (search == "" || MatchesSearch(r, search))
  }

  function SelectedTest(search: string, filter: string): Restaurant -> bool {
    (r: Restaurant) => Selected(r, search, filter)
  }

  /** The reference result: one pass keeping the restaurants that pass both active tests. */
  function Selection(restaurants: seq<Restaurant>, search: string, filter: string): seq<Restaurant> {
    Filter(restaurants, SelectedTest(search, filter))
  }

  // ---------------------------------------------------------------------------

  /** The result keeps its input's order, contains only restaurants passing both active tests
      (soundness), and every restaurant passing them (completeness). */
  lemma SelectionSoundComplete(restaurants: seq<Restaurant>, search: string, filter: string)
    ensures Subsequence(Selection(restaurants, search, filter), restaurants)
    ensures forall r :: r in Selection(restaurants, search, filter) ==>
              r in restaurants &&
              (filter != AllFilter ==> Includes(Lower(r.cuisine), Lower(filter))) &&
              (search != "" ==> Includes(Lower(r.name), Lower(search)) || Includes(Lower(r.cuisine), Lower(search)))
    ensures forall i :: 0 <= i < |restaurants| && Selected(restaurants[i], search, filter) ==>
              restaurants[i] in Selection(restaurants, search, filter)
  {
    FilterIsSubsequence(restaurants, SelectedTest(search, filter));
    var sel := Selection(restaurants, search, filter);
    forall r | r in sel
      ensures r in restaurants && Selected(r, search, filter)
    {
      var i :| 0 <= i < |sel| && sel[i] == r;
    }
  }

  /** With filter "All" and an empty search the whole list comes back, in order. */
  lemma NoCriteriaKeepsAll(restaurants: seq<Restaurant>)
    ensures Selection(restaurants, "", AllFilter) == restaurants
  {
    FilterAll(restaurants, SelectedTest("", AllFilter));
  }

  /** The search ignores letter case: terms that lower-case alike select the same restaurants.
      So does the filter, provided both filters are, or both are not, exactly "All". */
  lemma CaseInsensitive(restaurants: seq<Restaurant>, search1: string, search2: string,
                        filter1: string, filter2: string)
    requires Lower(search1) == Lower(search2)
    requires Lower(filter1) == Lower(filter2)
    requires filter1 == AllFilter <==> filter2 == AllFilter
    ensures Selection(restaurants, search1, filter1) == Selection(restaurants, search2, filter2)
  {
    assert search1 == "" <==> search2 == "" by {
      assert |Lower(search1)| == |search1| && |Lower(search2)| == |search2|;
    }
    FilterCongruent(restaurants, SelectedTest(search1, filter1), SelectedTest(search2, filter2));
  }

  /** The "All" sentinel is compared case-sensitively: "ALL" is an active cuisine test, so a
      restaurant whose cuisine does not contain "all" is kept under "All" but dropped under "ALL". */
  lemma AllSentinelIsCaseSensitive()
    ensures var rs := [Restaurant("5", "Noodle Bar", "", 4.0, "15-25 min")];
            Selection(rs, "", AllFilter) == rs && Selection(rs, "", "ALL") == []
  {
    var rs := [Restaurant("5", "Noodle Bar", "", 4.0, "15-25 min")];
    NoCriteriaKeepsAll(rs);
    assert !Includes(Lower(rs[0].cuisine), Lower("ALL"));
    assert rs[..0] == [];
  }

  // ---------------------------------------------------------------------------

  class ListingPage {
    /** The list the page filters: the placeholder restaurants. */
    const restaurants: seq<Restaurant>
    var searchTerm: string
    var activeFilter: string
    var filteredRestaurants: seq<Restaurant>
    var loading: bool

    constructor ()
      ensures restaurants == PlaceholderRestaurants
      ensures searchTerm == "" && activeFilter == AllFilter
      ensures filteredRestaurants == restaurants && loading
    {
      restaurants := PlaceholderRestaurants;
      searchTerm := "";
      activeFilter := AllFilter;
      filteredRestaurants := PlaceholderRestaurants;
      loading := true;
    }

    /** `filterAndSearchRestaurants`: narrow by cuisine unless the filter is "All", then by the
        search term unless it is empty. The two passes agree with the one-pass reference. */
    method FilterAndSearchRestaurants(currentSearch: string, currentFilter: string)
      modifies this`filteredRestaurants
      ensures filteredRestaurants == Selection(restaurants, currentSearch, currentFilter)
    {
      var result := restaurants;
      if currentFilter != AllFilter {
        result := Filter(result, CuisineTest(currentFilter));
      }
      if currentSearch != "" {
        result := Filter(result, SearchTest(currentSearch));
      }
      filteredRestaurants := result;
      SelectionOfPasses(restaurants, currentSearch, currentFilter);
    }

    /** The end of the simulated load. The timer was set up on the first render, so it filters
        with that render's empty term and "All" filter, not with what has been typed or clicked
        since: the whole list is shown again while the stored criteria stay. */
    method FinishLoading()
      modifies this
      ensures !loading
      ensures searchTerm == old(searchTerm) && activeFilter == old(activeFilter)
      ensures filteredRestaurants == Selection(restaurants, "", AllFilter)
      ensures filteredRestaurants == restaurants
    {
      loading := false;
      FilterAndSearchRestaurants("", AllFilter);
      NoCriteriaKeepsAll(restaurants);
    }

    /** `handleSearchChange`: store the new term and re-filter with it and the current filter. */
    method HandleSearchChange(newSearchTerm: string)
      modifies this
      ensures searchTerm == newSearchTerm && activeFilter == old(activeFilter) && loading == old(loading)
      ensures filteredRestaurants == Selection(restaurants, newSearchTerm, old(activeFilter))
    {
      searchTerm := newSearchTerm;
      FilterAndSearchRestaurants(newSearchTerm, activeFilter);
    }

    /** `handleFilterClick`: store the new filter and re-filter with it and the current term. */
    method HandleFilterClick(filter: string)
      modifies this
      ensures activeFilter == filter && searchTerm == old(searchTerm) && loading == old(loading)
      ensures filteredRestaurants == Selection(restaurants, old(searchTerm), filter)
    {
      activeFilter := filter;
      FilterAndSearchRestaurants(searchTerm, filter);
    }
  }

  /** After loading ends the page shows the whole list, so criteria entered during the load are
      dropped from the display whenever some restaurant fails them: the shown list then differs
      from the selection for the stored term and filter. */
  lemma CriteriaDuringLoadingDropped(restaurants: seq<Restaurant>, search: string, filter: string, i: int)
    requires 0 <= i < |restaurants| && !Selected(restaurants[i], search, filter)
    ensures Selection(restaurants, "", AllFilter) == restaurants
    ensures Selection(restaurants, search, filter) != Selection(restaurants, "", AllFilter)
  {
    NoCriteriaKeepsAll(restaurants);
    var sel := Selection(restaurants, search, filter);
    forall k | 0 <= k < |sel|
      ensures sel[k] != restaurants[i]
    {
      assert SelectedTest(search, filter)(sel[k]);
    }
    assert restaurants[i] !in sel;
  }

  /** The page's two successive passes compute the one-pass reference. */
  lemma SelectionOfPasses(restaurants: seq<Restaurant>, search: string, filter: string)
    ensures var afterFilter := if filter != AllFilter then Filter(restaurants, CuisineTest(filter)) else restaurants;
            (if search != "" then Filter(afterFilter, SearchTest(search)) else afterFilter)
            == Selection(restaurants, search, filter)
  {
    var sel := SelectedTest(search, filter);
    if filter != AllFilter && search != "" {
      FilterFilter(restaurants, CuisineTest(filter), SearchTest(search), sel);
    } else if filter != AllFilter {
      FilterCongruent(restaurants, CuisineTest(filter), sel);
    } else if search != "" {
      FilterCongruent(restaurants, SearchTest(search), sel);
    } else {
      FilterAll(restaurants, sel);
    }
  }
}
