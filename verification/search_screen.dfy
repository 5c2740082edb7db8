/**
 * The trainer search screen: the form inputs, the selected specialization
 * ids, the sort, the page and the committed search parameters the results
 * query is issued with. Its handlers are the state updates of the screen;
 * `SearchScreenState` holds the screen's `useState` values and each handler
 * is a method on it.
 *
 * `parseFloat` is a parameter: the model does not parse decimal text.
 */
module SearchScreen {
  import opened Js
  import opened FormUrlEncoded
  import opened TrainerApi

  /** All the screen's state values. */
  datatype Screen = Screen(
    query: string,
    city: string,
    state: string,
    minPrice: string,
    maxPrice: string,
    selectedSpecs: seq<string>,
    sortBy: string,
    sortOrder: string,
    showFilters: bool,
    page: int,
    activeParams: SearchParams)

  /** The state of a freshly mounted screen, which `handleClear` also
      restores (all but `showFilters`). */
  const Initial: Screen := Screen("", "", "", "", "", [], "totalRating", "desc", false, 1, NoParams)

  // ---------------------------------------------------------------------
  // Specialization toggling

  /** `prev.filter((s) => s !== id)` */
  function Without(s: seq<string>, id: string): (r: seq<string>)
    ensures forall x :: x in r <==> x in s && x != id
    ensures id !in s ==> r == s
    ensures |r| <= |s|
  {
    if s == [] then []
    else (if s[0] == id then [] else [s[0]]) + Without(s[1..], id)
  }

  lemma {:induction false} WithoutKeepsDistinct(s: seq<string>, id: string)
    requires Distinct(s)
    ensures Distinct(Without(s, id))
  {
    if s != [] {
      assert Distinct(s[1..]) by {
        forall i, j | 0 <= i < j < |s[1..]| ensures s[1..][i] != s[1..][j] {
          assert s[1..][i] == s[i + 1] && s[1..][j] == s[j + 1];
        }
      }
      WithoutKeepsDistinct(s[1..], id);
      var rest := Without(s[1..], id);
      if s[0] != id {
        assert s[0] !in s[1..] by {
          forall k | 0 <= k < |s[1..]| ensures s[1..][k] != s[0] {
            assert s[1..][k] == s[k + 1];
          }
        }
        var r := [s[0]] + rest;
        forall i, j | 0 <= i < j < |r| ensures r[i] != r[j] {
          if i == 0 {
            assert r[j] == rest[j - 1] && r[j] in rest;
          } else {
            assert r[i] == rest[i - 1] && r[j] == rest[j - 1];
          }
        }
      }
    }
  }

  /** `toggleSpec`'s updater: the id leaves the selection when it is in it
      and joins it at the end otherwise; no other id changes. */
  function Toggled(prev: seq<string>, id: string): (r: seq<string>)
    ensures id in r <==> id !in prev
    ensures forall x :: x != id ==> (x in r <==> x in prev)
    ensures id !in prev ==> r == prev + [id]
  {
    if id in prev then Without(prev, id) else prev + [id]
  }

  /** A selection without repeats stays without repeats. */
  lemma ToggledKeepsDistinct(prev: seq<string>, id: string)
    requires Distinct(prev)
    ensures Distinct(Toggled(prev, id))
  {
    if id in prev {
      WithoutKeepsDistinct(prev, id);
    } else {
      var r := prev + [id];
      forall i, j | 0 <= i < j < |r| ensures r[i] != r[j] {
        if j == |prev| {
          assert r[i] == prev[i];
        }
      }
    }
  }

  lemma {:induction false} WithoutLast(s: seq<string>, id: string)
    requires id !in s
    ensures Without(s + [id], id) == s
  {
    if s == [] {
      assert [id][1..] == [];
    } else {
      assert (s + [id])[1..] == s[1..] + [id];
      WithoutLast(s[1..], id);
      assert s == [s[0]] + s[1..];
    }
  }

  /** Toggling an unselected id twice restores the selection exactly;
      toggling a selected one twice keeps the same ids, without repeats,
      with that id moved to the end. */
  lemma ToggleTwice(prev: seq<string>, id: string)
    requires Distinct(prev)
    ensures id !in prev ==> Toggled(Toggled(prev, id), id) == prev
    ensures id in prev ==> Toggled(Toggled(prev, id), id) == Without(prev, id) + [id]
    ensures forall x :: x in Toggled(Toggled(prev, id), id) <==> x in prev
    ensures Distinct(Toggled(Toggled(prev, id), id))
  {
    ToggledKeepsDistinct(prev, id);
    ToggledKeepsDistinct(Toggled(prev, id), id);
    if id !in prev {
      WithoutLast(prev, id);
    }
  }

  // ---------------------------------------------------------------------
  // Committed parameters

  /** The search parameters object. Every key is optional; `None` is a key
      the object does not have. */
  datatype SearchParams = SearchParams(
    q: Option<string>,
    city: Option<string>,
    state: Option<string>,
    minRate: Option<JsNumber>,
    maxRate: Option<JsNumber>,
    specializations: Option<string>,
    sortBy: Option<string>,
    sortOrder: Option<string>,
    page: Option<int>,
    limit: Option<int>)

  /** `{}` */
  const NoParams: SearchParams := SearchParams(None, None, None, None, None, None, None, None, None, None)

  function StrEntry(key: string, v: Option<string>): Obj {
    if v.Some? then [(key, Str(v.value))] else []
  }

  function NumEntry(key: string, v: Option<JsNumber>): Obj {
    if v.Some? then [(key, Number(v.value))] else []
  }

  function IntEntry(key: string, v: Option<int>): Obj {
    if v.Some? then [(key, Number(FromInt(v.value)))] else []
  }

  /** The parameters as the JavaScript object they are, its keys in
      insertion order. Every object the screen builds inserts its keys in
      this order, and the handlers only delete keys or overwrite `page`,
      so the order is the one the screen produces. */
  function ToObj(p: SearchParams): (o: Obj)
    ensures o == [] <==> p == NoParams
  {
    StrEntry("q", p.q) + StrEntry("city", p.city) + StrEntry("state", p.state)
    + NumEntry("minRate", p.minRate) + NumEntry("maxRate", p.maxRate)
    + StrEntry("specializations", p.specializations) + StrEntry("sortBy", p.sortBy)
    + StrEntry("sortOrder", p.sortOrder) + IntEntry("page", p.page) + IntEntry("limit", p.limit)
  }

  /** The parameters `handleSearch` commits. */
  function SearchParamsOf(s: Screen, parseFloat: string -> JsNumber): (p: SearchParams)
    ensures p.specializations.Some? <==> |s.selectedSpecs| > 0
    ensures p.specializations.Some? ==> p.specializations.value == Join(s.selectedSpecs, ',')
    ensures p.minRate.Some? <==> s.minPrice != ""
    ensures p.minRate.Some? ==> p.minRate.value == parseFloat(s.minPrice)
    ensures p.maxRate.Some? <==> s.maxPrice != ""
    ensures p.maxRate.Some? ==> p.maxRate.value == parseFloat(s.maxPrice)
    ensures p.sortBy == (if s.sortBy != "" then Some(s.sortBy) else None)
    ensures p.sortOrder == Some(s.sortOrder) && p.page == Some(1) && p.limit == Some(20)
    ensures p.q.Some? <==> Trim(s.query) != ""
    ensures p.q.Some? ==> p.q.value == Trim(s.query)
    ensures p.city.Some? <==> Trim(s.city) != ""
    ensures p.city.Some? ==> p.city.value == Trim(s.city)
    ensures p.state.Some? <==> Trim(s.state) != ""
    ensures p.state.Some? ==> p.state.value == Trim(s.state)
  {
    SearchParams(
      if Trim(s.query) != "" then Some(Trim(s.query)) else None,
      if Trim(s.city) != "" then Some(Trim(s.city)) else None,
      if Trim(s.state) != "" then Some(Trim(s.state)) else None,
      if s.minPrice != "" then Some(parseFloat(s.minPrice)) else None,
      if s.maxPrice != "" then Some(parseFloat(s.maxPrice)) else None,
      if |s.selectedSpecs| > 0 then Some(Join(s.selectedSpecs, ',')) else None,
      if s.sortBy != "" then Some(s.sortBy) else None,
      Some(s.sortOrder), Some(1), Some(20))
  }

  lemma NumberOneAndTwenty()
    ensures ToJsString(Number(FromInt(1))) == "1"
    ensures ToJsString(Number(FromInt(20))) == "20"
  {
    assert NatDigits(1) == "1";
    assert NatDigits(20) == NatDigits(2) + [DigitChar(0)];
  }

  /** What the server receives from committed parameters that ask for
      page 1 of 20: the query string reads back as the kept pairs, and
      these carry the page, the page size and every non-empty text
      filter. */
  lemma QuerySent(p: SearchParams)
    requires p.page == Some(1) && p.limit == Some(20)
    ensures var pairs := KeptPairs(ToObj(p));
      && pairs != []
      && Parse(Serialize(pairs)) == Some(pairs)
      && ("page", "1") in pairs && ("limit", "20") in pairs
      && (p.q.Some? && p.q.value != "" ==> ("q", p.q.value) in pairs)
      && (p.city.Some? && p.city.value != "" ==> ("city", p.city.value) in pairs)
      && (p.state.Some? && p.state.value != "" ==> ("state", p.state.value) in pairs)
      && (p.specializations.Some? && p.specializations.value != "" ==>
            ("specializations", p.specializations.value) in pairs)
      && (p.sortBy.Some? && p.sortBy.value != "" ==> ("sortBy", p.sortBy.value) in pairs)
      && (p.sortOrder.Some? && p.sortOrder.value != "" ==> ("sortOrder", p.sortOrder.value) in pairs)
  {
    var o := ToObj(p);
    ToObjHas(p);
    NumberOneAndTwenty();
    PairSent(o, "page", Number(FromInt(1)));
    PairSent(o, "limit", Number(FromInt(20)));
    if p.q.Some? && p.q.value != "" { PairSent(o, "q", Str(p.q.value)); }
    if p.city.Some? && p.city.value != "" { PairSent(o, "city", Str(p.city.value)); }
    if p.state.Some? && p.state.value != "" { PairSent(o, "state", Str(p.state.value)); }
    if p.specializations.Some? && p.specializations.value != "" {
      PairSent(o, "specializations", Str(p.specializations.value));
    }
    if p.sortBy.Some? && p.sortBy.value != "" { PairSent(o, "sortBy", Str(p.sortBy.value)); }
    if p.sortOrder.Some? && p.sortOrder.value != "" { PairSent(o, "sortOrder", Str(p.sortOrder.value)); }
    SerializeRoundTrip(KeptPairs(o));
  }

  /** What the server receives from a search: page 1 of 20 results, each
      text filter, trimmed, when it is not blank, the selected
      specializations joined by commas, and the sort key and order. */
  lemma SearchQuerySent(s: Screen, parseFloat: string -> JsNumber)
    ensures var pairs := KeptPairs(ToObj(SearchParamsOf(s, parseFloat)));
      && pairs != []
      && Parse(Serialize(pairs)) == Some(pairs)
      && ("page", "1") in pairs && ("limit", "20") in pairs
      && (!AllWhitespace(s.query) ==> ("q", Trim(s.query)) in pairs)
      && (!AllWhitespace(s.city) ==> ("city", Trim(s.city)) in pairs)
      && (!AllWhitespace(s.state) ==> ("state", Trim(s.state)) in pairs)
      && (|s.selectedSpecs| > 0 && Join(s.selectedSpecs, ',') != "" ==>
            ("specializations", Join(s.selectedSpecs, ',')) in pairs)
      && (s.sortBy != "" ==> ("sortBy", s.sortBy) in pairs)
      && (s.sortOrder != "" ==> ("sortOrder", s.sortOrder) in pairs)
  {
    TrimEmptyIff(s.query);
    TrimEmptyIff(s.city);
    TrimEmptyIff(s.state);
    QuerySent(SearchParamsOf(s, parseFloat));
  }

  /** The entries of the object view. */
  lemma ToObjHas(p: SearchParams)
    ensures p.q.Some? ==> ("q", Str(p.q.value)) in ToObj(p)
    ensures p.city.Some? ==> ("city", Str(p.city.value)) in ToObj(p)
    ensures p.state.Some? ==> ("state", Str(p.state.value)) in ToObj(p)
    ensures p.specializations.Some? ==> ("specializations", Str(p.specializations.value)) in ToObj(p)
    ensures p.sortBy.Some? ==> ("sortBy", Str(p.sortBy.value)) in ToObj(p)
    ensures p.sortOrder.Some? ==> ("sortOrder", Str(p.sortOrder.value)) in ToObj(p)
    ensures p.page.Some? ==> ("page", Number(FromInt(p.page.value))) in ToObj(p)
    ensures p.limit.Some? ==> ("limit", Number(FromInt(p.limit.value))) in ToObj(p)
  {
  }

  /** A kept entry of the object is a pair of the query. */
  lemma PairSent(o: Obj, key: string, v: JsValue)
    requires (key, v) in o && Kept(v)
    ensures (key, ToJsString(v)) in KeptPairs(o)
  {
    var i :| 0 <= i < |o| && o[i] == (key, v);
  }

  /** The number of specializations the active chip shows is the number of
      selected ids, as long as no id contains a comma. */
  lemma SpecializationChipCount(specs: seq<string>)
    requires specs != []
    requires forall id :: id in specs ==> ',' !in id
    ensures |Split(Join(specs, ','), ',')| == |specs|
  {
    SplitJoin(specs, ',');
  }

  /** The argument of the results query: `undefined` for an object without
      keys. */
  function QueryArgument(p: SearchParams): (arg: Option<Obj>)
    ensures arg.None? <==> p == NoParams
    ensures arg.Some? ==> arg.value == ToObj(p)
  {
    if |ToObj(p)| > 0 then Some(ToObj(p)) else None
  }

  /** The chips of the active parameters. */
  datatype Chip = QueryChip | CityChip | StateChip | RateChip | SpecializationsChip

  /** The screen after a chip's remove button: the chip's own inputs
      cleared and its keys deleted from the committed parameters; the rate
      chip clears both bounds. */
  function ChipRemoved(s: Screen, c: Chip): (r: Screen)
    ensures c == QueryChip ==> r == s.(query := "", activeParams := s.activeParams.(q := None))
    ensures c == CityChip ==> r == s.(city := "", activeParams := s.activeParams.(city := None))
    ensures c == StateChip ==> r == s.(state := "", activeParams := s.activeParams.(state := None))
    ensures c == RateChip ==>
              r == s.(minPrice := "", maxPrice := "", activeParams := s.activeParams.(minRate := None, maxRate := None))
    ensures c == SpecializationsChip ==>
              r == s.(selectedSpecs := [], activeParams := s.activeParams.(specializations := None))
  {
    var p := s.activeParams;
    match c
    case QueryChip => s.(query := "", activeParams := p.(q := None))
    case CityChip => s.(city := "", activeParams := p.(city := None))
    case StateChip => s.(state := "", activeParams := p.(state := None))
    case RateChip => s.(minPrice := "", maxPrice := "", activeParams := p.(minRate := None, maxRate := None))
    case SpecializationsChip => s.(selectedSpecs := [], activeParams := p.(specializations := None))
  }

  /** Removing a chip twice is removing it once, and removing two chips
      gives the same screen in either order. */
  lemma ChipRemovalCommutes(s: Screen, c: Chip, d: Chip)
    ensures ChipRemoved(ChipRemoved(s, c), c) == ChipRemoved(s, c)
    ensures ChipRemoved(ChipRemoved(s, c), d) == ChipRemoved(ChipRemoved(s, d), c)
  {
  }

  /** The screen's state values. */
  class SearchScreenState {
    var query: string
    var city: string
    var state: string
    var minPrice: string
    var maxPrice: string
    var selectedSpecs: seq<string>
    var sortBy: string
    var sortOrder: string
    var showFilters: bool
    var page: int
    var activeParams: SearchParams

    function State(): Screen
      reads this
    {
      Screen(query, city, state, minPrice, maxPrice, selectedSpecs, sortBy, sortOrder, showFilters, page, activeParams)
    }

    /** The initial `useState` values. */
    constructor ()
      ensures State() == Initial
    {
      query, city, state, minPrice, maxPrice := "", "", "", "", "";
      selectedSpecs, sortBy, sortOrder := [], "totalRating", "desc";
      showFilters, page, activeParams := false, 1, NoParams;
    }

    /** `handleSearch`: commits the parameters of the current inputs, key
        by key, and goes back to page 1. */
    method HandleSearch(parseFloat: string -> JsNumber)
      modifies this
      ensures activeParams == SearchParamsOf(old(State()), parseFloat)
      ensures State() == old(State()).(page := 1, activeParams := activeParams)
    {
      var params := NoParams;
      if Trim(query) != "" { params := params.(q := Some(Trim(query))); }
      if Trim(city) != "" { params := params.(city := Some(Trim(city))); }
      if Trim(state) != "" { params := params.(state := Some(Trim(state))); }
      if minPrice != "" { params := params.(minRate := Some(parseFloat(minPrice))); }
      if maxPrice != "" { params := params.(maxRate := Some(parseFloat(maxPrice))); }
      if |selectedSpecs| > 0 { params := params.(specializations := Some(Join(selectedSpecs, ','))); }
      if sortBy != "" { params := params.(sortBy := Some(sortBy)); }
      params := params.(sortOrder := Some(sortOrder));
      params := params.(page := Some(1));
      params := params.(limit := Some(20));
      page := 1;
      activeParams := params;
    }

    /** `handleClear`: every input and the committed parameters back to
        their initial values; the filter panel stays as it is. */
    method HandleClear()
      modifies this
      ensures State() == Initial.(showFilters := old(showFilters))
      ensures QueryArgument(activeParams).None?
    {
      query, city, state, minPrice, maxPrice := "", "", "", "", "";
      selectedSpecs := [];
      sortBy, sortOrder := "totalRating", "desc";
      activeParams := NoParams;
      page := 1;
    }

    /** `toggleSpec(id)` */
    method ToggleSpec(id: string)
      modifies this
      ensures State() == old(State()).(selectedSpecs := Toggled(old(selectedSpecs), id))
    {
      selectedSpecs := Toggled(selectedSpecs, id);
    }

    /** `toggleFilters()` */
    method ToggleFilters()
      modifies this
      ensures State() == old(State()).(showFilters := !old(showFilters))
    {
      showFilters := !showFilters;
    }

    /** The "Load More" button: the next page, in the page state and in the
        committed parameters; no other parameter changes. */
    method LoadMore()
      modifies this
      ensures State() == old(State()).(page := old(page) + 1, activeParams := old(activeParams).(page := Some(old(page) + 1)))
    {
      var nextPage := page + 1;
      page := nextPage;
      activeParams := activeParams.(page := Some(nextPage));
    }

    /** The remove button of an active chip. */
    method RemoveChip(c: Chip)
      modifies this
      ensures State() == ChipRemoved(old(State()), c)
    {
      match c {
        case QueryChip =>
          query := "";
          activeParams := activeParams.(q := None);
        case CityChip =>
          city := "";
          activeParams := activeParams.(city := None);
        case StateChip =>
          state := "";
          activeParams := activeParams.(state := None);
        case RateChip =>
          minPrice, maxPrice := "", "";
          activeParams := activeParams.(minRate := None, maxRate := None);
        case SpecializationsChip =>
          selectedSpecs := [];
          activeParams := activeParams.(specializations := None);
      }
    }

    /** The URL of the results query the screen issues; it reads the state
        and changes nothing. */
    method SearchRequestUrl() returns (url: string)
      ensures activeParams == NoParams ==> url == SearchPath
      ensures activeParams != NoParams && KeptPairs(ToObj(activeParams)) != [] ==>
                url == SearchPath + "?" + Serialize(KeptPairs(ToObj(activeParams)))
    {
      url := SearchUrl(QueryArgument(activeParams));
    }
  }
}
