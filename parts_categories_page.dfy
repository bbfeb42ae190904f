/** The "Browse Parts" page: pick a category, type a term, and see every
    endpoint's first page of matches grouped by sheet. */
module PartsCategoriesPage {
  import opened Records
  import opened Text
  import opened ClientResults
  import Seqs

  datatype Category = Engines | ServiceParts

  /** `apiRoutes[category]`. */
  function ApiRoutes(c: Category): (r: seq<string>)
    ensures |r| >= 1
    ensures forall i :: 0 <= i < |r| ==> r[i] != [] && r[i][|r[i]| - 1] != '/'
  {
    match c
    case Engines => ["/api/engines"]
    case ServiceParts => ["/api/sparkplugs", "/api/filters"]
  }

  /** The request sent to one endpoint: always `q`, page 1, 30 rows. */
  function SearchRequest(url: string, term: string): (r: Request)
    ensures r.endpoint == url && r.q == Str(term) && r.page == 1 && r.pageSize == 30
  {
    Request(url, Str(term), 1, PageSize)
  }

  /** `{...item, sheet: item.sheet || url.split('/').pop()}`. */
  function TagOrigin(item: Row, url: string): (r: Row)
    ensures Truthy(Get(item, "sheet")) ==> Get(r, "sheet") == Get(item, "sheet")
    ensures !Truthy(Get(item, "sheet")) ==> Get(r, "sheet") == Str(LastSegment(url))
    ensures forall k :: k != "sheet" ==> Get(r, k) == Get(item, k)
  {
    var s := Get(item, "sheet");
    Set(item, "sheet", if Truthy(s) then s else Str(LastSegment(url)))
  }

  /** An item that already names its sheet comes back unchanged. */
  lemma TagOriginKeepsTaggedItem(item: Row, url: string)
    requires UniqueKeys(item) && Truthy(Get(item, "sheet"))
    ensures TagOrigin(item, url) == item
  {
    assert HasKey(item, "sheet");
    OverwriteSameValue(item, "sheet");
  }

  function TagAll(items: seq<Row>, url: string): (r: seq<Row>)
    ensures |r| == |items|
  {
    seq(|items|, i requires 0 <= i < |items| => TagOrigin(items[i], url))
  }

  /** The per-endpoint result lists of one search, tagged. */
  function TaggedLists(urls: seq<string>, term: string, server: Request -> Response): seq<seq<Row>>
  {
    seq(|urls|, i requires 0 <= i < |urls| =>
      var resp := server(SearchRequest(urls[i], term));
      TagAll(if resp.Ok? then resp.results else [], urls[i]))
  }

  predicate AllOk(urls: seq<string>, term: string, server: Request -> Response)
  {
    forall i :: 0 <= i < |urls| ==> server(SearchRequest(urls[i], term)).Ok?
  }

  /** `Promise.all` over the endpoints, then `.flat()`: when every response is
      OK, the tagged result lists concatenated in endpoint order; otherwise the
      whole search rejects. */
  function MergeResults(urls: seq<string>, term: string, server: Request -> Response): (r: Option<seq<Row>>)
    ensures r.None? <==> exists i :: 0 <= i < |urls| && !server(SearchRequest(urls[i], term)).Ok?
  {
    if AllOk(urls, term, server) then Some(Seqs.Flatten(TaggedLists(urls, term, server))) else None
  }

  /** For "Service Parts": the spark plugs' results, then the filters'. */
  lemma ServicePartsMerge(term: string, server: Request -> Response)
    requires server(SearchRequest("/api/sparkplugs", term)).Ok?
    requires server(SearchRequest("/api/filters", term)).Ok?
    ensures MergeResults(ApiRoutes(ServiceParts), term, server) ==
      Some(TagAll(server(SearchRequest("/api/sparkplugs", term)).results, "/api/sparkplugs") +
           TagAll(server(SearchRequest("/api/filters", term)).results, "/api/filters"))
  {
    var ss := TaggedLists(ApiRoutes(ServiceParts), term, server);
    assert AllOk(ApiRoutes(ServiceParts), term, server);
    assert |ss| == 2;
    assert ss[1..][1..] == [];
    assert Seqs.Flatten(ss[1..]) == ss[1] + Seqs.Flatten(ss[1..][1..]);
    assert Seqs.Flatten(ss) == ss[0] + ss[1];
  }

  /** The merged list is as long as all endpoints' result lists together. */
  lemma {:induction false} MergeLength(urls: seq<string>, term: string, server: Request -> Response)
    requires AllOk(urls, term, server)
    ensures |MergeResults(urls, term, server).value| ==
            Seqs.SumLengths(seq(|urls|, i requires 0 <= i < |urls| => server(SearchRequest(urls[i], term)).results))
  {
    if urls != [] {
      MergeLength(urls[1..], term, server);
      assert TaggedLists(urls, term, server)[1..] == TaggedLists(urls[1..], term, server);
      assert seq(|urls|, i requires 0 <= i < |urls| => server(SearchRequest(urls[i], term)).results)[1..] ==
             seq(|urls[1..]|, i requires 0 <= i < |urls[1..]| => server(SearchRequest(urls[1..][i], term)).results);
    }
  }

  /** Tagging with an endpoint path gives every item a truthy `sheet`. */
  lemma TagAllNamesSheet(items: seq<Row>, url: string, item: Row)
    requires url != [] && url[|url| - 1] != '/'
    requires item in TagAll(items, url)
    ensures Truthy(Get(item, "sheet"))
  {
    var j :| 0 <= j < |items| && TagAll(items, url)[j] == item;
    assert LastSegment(url) != [];
  }

  /** Every item of a category's merged results names its sheet. */
  lemma MergedItemsNameSheet(c: Category, term: string, server: Request -> Response, item: Row)
    requires AllOk(ApiRoutes(c), term, server)
    requires item in MergeResults(ApiRoutes(c), term, server).value
    ensures Truthy(Get(item, "sheet"))
  {
    var urls := ApiRoutes(c);
    var ss := TaggedLists(urls, term, server);
    Seqs.FlattenMember(ss, item);
    var i :| 0 <= i < |ss| && item in ss[i];
    var resp := server(SearchRequest(urls[i], term));
    assert resp.Ok?;
    assert ss[i] == TagAll(resp.results, urls[i]);
    TagAllNamesSheet(resp.results, urls[i], item);
  }

  /** The group of items without a truthy `sheet`. */
  const OtherGroup := "Other"

  /** The card label: the first field that is truthy and not one of
      `sheet`, `source`, `Qty`, `QTY`, `NOTE`. */
  predicate IsLabelField(f: Field)
  {
    Truthy(f.value) && f.key !in ["sheet", "source", "Qty", "QTY", "NOTE"]
  }

  /** The index of the first label field, if any. */
  function LabelIndex(item: Row): (r: Option<nat>)
    ensures r.Some? ==> r.value < |item| && IsLabelField(item[r.value]) &&
                        forall j :: 0 <= j < r.value ==> !IsLabelField(item[j])
    ensures r.None? ==> forall j :: 0 <= j < |item| ==> !IsLabelField(item[j])
  {
    if item == [] then None
    else if IsLabelField(item[0]) then Some(0)
    else
      match LabelIndex(item[1..])
      case None => None
      case Some(k) => Some(k + 1)
  }

  /** `label ? label[1] : 'Unnamed Part'`. */
  function CardLabel(item: Row): (r: string)
    ensures r == "Unnamed Part" || exists i :: 0 <= i < |item| && IsLabelField(item[i]) && r == item[i].value.s
    ensures (forall j :: 0 <= j < |item| ==> !IsLabelField(item[j])) ==> r == "Unnamed Part"
    ensures forall i :: (0 <= i < |item| && IsLabelField(item[i]) &&
                         (forall j :: 0 <= j < i ==> !IsLabelField(item[j]))) ==> r == item[i].value.s
  {
    match LabelIndex(item)
    case None => "Unnamed Part"
    case Some(i) => item[i].value.s
  }

  /** The fields a card lists: truthy, and neither `sheet` nor `source`. */
  function CardFields(item: Row): (r: Row)
    ensures forall i :: 0 <= i < |r| ==> r[i] in item && r[i].key != "sheet" && r[i].key != "source" && Truthy(r[i].value)
    ensures forall i :: 0 <= i < |item| && item[i].key != "sheet" && item[i].key != "source" && Truthy(item[i].value) ==> item[i] in r
  {
    ShownFields(item, true)
  }

  /** "No matching parts found." is rendered: a category is open, no group
      is shown, a term is set and nothing is loading. */
  predicate NoMatchShown(categoryOpen: bool, debounced: string, isLoading: bool, results: seq<Row>)
  {
    categoryOpen && !(!isLoading && |GroupOrder(results, OtherGroup)| > 0) && debounced != "" && !isLoading
  }

  /** With a category open, the message appears exactly when a term is set,
      nothing is loading and there are no results. */
  lemma NoMatchShownIff(categoryOpen: bool, debounced: string, isLoading: bool, results: seq<Row>)
    ensures NoMatchShown(categoryOpen, debounced, isLoading, results) <==>
            categoryOpen && debounced != "" && !isLoading && results == []
  {
    GroupOrderEmptyIff(results, OtherGroup);
  }

  /** One run of `fetchData` past its guard: the endpoints it requests and the
      term it sends. */
  datatype Fetch = Fetch(urls: seq<string>, term: string)

  class PartsCategoriesPage {
    var selectedCategory: Option<Category>
    var searchTerm: string
    var debouncedSearchTerm: string
    var results: seq<Row>
    var isLoading: bool
    /** The 300 ms debounce timer is armed. */
    var debouncePending: bool

    /** The first render. */
    constructor ()
      ensures selectedCategory == None && searchTerm == "" && debouncedSearchTerm == ""
      ensures results == [] && !isLoading && !debouncePending
    {
      selectedCategory := None;
      searchTerm := "";
      debouncedSearchTerm := "";
      results := [];
      isLoading := false;
      debouncePending := false;
    }

    /** The effects after the first render: the debounce timer starts and
        the fetch effect runs once. */
    method Mount() returns (f: Option<Fetch>)
      modifies this
      ensures debouncePending
      ensures FetchStarted(f, old(results), old(isLoading))
      ensures selectedCategory == old(selectedCategory) && searchTerm == old(searchTerm)
      ensures debouncedSearchTerm == old(debouncedSearchTerm)
    {
      debouncePending := true;
      f := FetchEffect();
    }

    /** The input's `onChange`: a new term restarts the debounce timer. */
    method Type(s: string)
      modifies this
      ensures searchTerm == s
      ensures debouncePending == (old(debouncePending) || s != old(searchTerm))
      ensures selectedCategory == old(selectedCategory) && debouncedSearchTerm == old(debouncedSearchTerm)
      ensures results == old(results) && isLoading == old(isLoading)
    {
      if s != searchTerm {
        searchTerm := s;
        debouncePending := true;
      }
    }

    /** The debounce timer fires: the debounced term becomes the trimmed
        input, and a changed term re-runs the fetch effect. */
    method Quiesce() returns (f: Option<Fetch>)
      modifies this
      ensures !debouncePending
      ensures old(debouncePending) ==> debouncedSearchTerm == Trim(searchTerm)
      ensures !old(debouncePending) ==> debouncedSearchTerm == old(debouncedSearchTerm) && f == None
      ensures debouncedSearchTerm == old(debouncedSearchTerm) ==> f == None && results == old(results) && isLoading == old(isLoading)
      ensures debouncedSearchTerm != old(debouncedSearchTerm) ==> FetchStarted(f, old(results), old(isLoading))
      ensures searchTerm == old(searchTerm) && selectedCategory == old(selectedCategory)
    {
      f := None;
      if debouncePending {
        debouncePending := false;
        var term := Trim(searchTerm);
        if term != debouncedSearchTerm {
          debouncedSearchTerm := term;
          f := FetchEffect();
          assert searchTerm == old(searchTerm) && debouncedSearchTerm == term;
        }
      }
    }

    /** A category button's `onClick`: a new category re-runs the fetch effect. */
    method SelectCategory(c: Category) returns (f: Option<Fetch>)
      modifies this
      ensures selectedCategory == Some(c)
      ensures old(selectedCategory) == Some(c) ==> f == None && results == old(results) && isLoading == old(isLoading)
      ensures old(selectedCategory) != Some(c) ==> FetchStarted(f, old(results), old(isLoading))
      ensures searchTerm == old(searchTerm) && debouncedSearchTerm == old(debouncedSearchTerm)
      ensures debouncePending == old(debouncePending)
    {
      if selectedCategory == Some(c) {
        return None;
      }
      selectedCategory := Some(c);
      f := FetchEffect();
    }

    /** What the fetch effect did: nothing when no category is selected or
        the debounced term is empty; otherwise it requested page 1 of every
        endpoint of the category with the debounced term, cleared the
        results and started loading. */
    ghost predicate FetchStarted(f: Option<Fetch>, oldResults: seq<Row>, oldLoading: bool)
      reads this
    {
      if selectedCategory.None? || debouncedSearchTerm == "" then
        f == None && results == oldResults && isLoading == oldLoading
      else
        f == Some(Fetch(ApiRoutes(selectedCategory.value), debouncedSearchTerm)) &&
        results == [] && isLoading
    }

    /** `fetchData` up to its first `await`. */
    method FetchEffect() returns (f: Option<Fetch>)
      modifies this`results, this`isLoading
      ensures FetchStarted(f, old(results), old(isLoading))
    {
      if selectedCategory.None? || debouncedSearchTerm == "" {
        return None;
      }
      f := Some(Fetch(ApiRoutes(selectedCategory.value), debouncedSearchTerm));
      isLoading := true;
      results := [];
    }

    /** A started `fetchData` resolves. Nothing cancels it, so it applies
        whatever the page shows now: on success the merged results replace
        the list, on failure the list stays as it is; loading ends either way. */
    method Settle(f: Fetch, server: Request -> Response)
      modifies this`results, this`isLoading
      ensures !isLoading
      ensures match MergeResults(f.urls, f.term, server)
              case Some(merged) => results == merged
              case None => results == old(results)
    {
      var merged := MergeResults(f.urls, f.term, server);
      if merged.Some? {
        results := merged.value;
      }
      isLoading := false;
    }

    /** The "Back to Categories" button. */
    method Back()
      modifies this
      ensures selectedCategory == None && searchTerm == "" && results == []
      ensures debouncePending == (old(debouncePending) || old(searchTerm) != "")
      ensures debouncedSearchTerm == old(debouncedSearchTerm) && isLoading == old(isLoading)
    {
      selectedCategory := None;
      if searchTerm != "" {
        searchTerm := "";
        debouncePending := true;
      }
      results := [];
    }
  }
}
