/** The service parts page: the spark plug and filter endpoints asked one
    after the other, a debounced term, "Load More" paging, and an
    AbortController that cancels the fetch in flight when a new one starts. */
module ServicePartsPage {
  import opened Records
  import opened Text
  import opened ClientResults
  import Seqs

  const Endpoints: seq<string> := ["/api/sparkplugs", "/api/filters"]

  /** The request `fetchParts(search, pageNum)` sends to one endpoint. */
  function PartsRequest(endpoint: string, search: string, pageNum: int): (r: Request)
    ensures r.endpoint == endpoint && r.page == pageNum && r.pageSize == 30
    ensures r.q == Missing <==> search == ""
    ensures r.q.Str? ==> r.q.s == search
  {
    Request(endpoint, QueryParam(search), pageNum, PageSize)
  }

  /** What asking `endpoints` in turn yields: every endpoint's results in
      endpoint order, or failure as soon as one response is not OK. */
  function Sequential(endpoints: seq<string>, search: string, pageNum: int, server: Request -> Response): (r: Option<seq<Row>>)
  {
    if endpoints == [] then Some([])
    else
      var resp := server(PartsRequest(endpoints[0], search, pageNum));
      if !resp.Ok? then None
      else
        match Sequential(endpoints[1..], search, pageNum, server)
        case None => None
        case Some(rest) => Some(resp.results + rest)
  }

  /** The requests actually sent: those up to and including the first one
      that fails. */
  function Asked(endpoints: seq<string>, search: string, pageNum: int, server: Request -> Response): (r: seq<Request>)
    ensures |r| <= |endpoints|
  {
    if endpoints == [] then []
    else
      var req := PartsRequest(endpoints[0], search, pageNum);
      if !server(req).Ok? then [req]
      else [req] + Asked(endpoints[1..], search, pageNum, server)
  }

  /** The endpoints are asked in order; every request but the last was
      answered OK, and the loop stops early only after a failure. */
  lemma {:induction false} AskedSpec(endpoints: seq<string>, search: string, pageNum: int, server: Request -> Response)
    ensures var r := Asked(endpoints, search, pageNum, server);
      (endpoints != [] ==> |r| >= 1) &&
      (forall i :: 0 <= i < |r| ==> r[i] == PartsRequest(endpoints[i], search, pageNum)) &&
      (forall i :: 0 <= i < |r| - 1 ==> server(r[i]).Ok?) &&
      (|r| < |endpoints| ==> !server(r[|r| - 1]).Ok?)
  {
    if endpoints != [] {
      AskedSpec(endpoints[1..], search, pageNum, server);
    }
  }

  /** `acc` followed by what the remaining endpoints yield. */
  function Then(acc: seq<Row>, rest: Option<seq<Row>>): Option<seq<Row>>
  {
    match rest
    case None => None
    case Some(r) => Some(acc + r)
  }

  lemma ThenAssoc(acc: seq<Row>, more: seq<Row>, rest: Option<seq<Row>>)
    ensures Then(acc, Then(more, rest)) == Then(acc + more, rest)
  {
    if rest.Some? {
      assert acc + (more + rest.value) == (acc + more) + rest.value;
    }
  }

  /** One step of the loop: asking the endpoint at `i` and then the rest. */
  lemma LoopStep(endpoints: seq<string>, i: int, search: string, pageNum: int, server: Request -> Response,
                 acc: seq<Row>, issued: seq<Request>)
    requires 0 <= i < |endpoints|
    ensures var resp := server(PartsRequest(endpoints[i], search, pageNum));
      Then(acc, Sequential(endpoints[i..], search, pageNum, server)) ==
        (if resp.Ok? then Then(acc + resp.results, Sequential(endpoints[i + 1..], search, pageNum, server)) else None)
    ensures var req := PartsRequest(endpoints[i], search, pageNum);
      issued + Asked(endpoints[i..], search, pageNum, server) ==
        (issued + [req]) + (if server(req).Ok? then Asked(endpoints[i + 1..], search, pageNum, server) else [])
  {
    assert endpoints[i..][1..] == endpoints[i + 1..];
    var resp := server(PartsRequest(endpoints[i], search, pageNum));
    if resp.Ok? {
      ThenAssoc(acc, resp.results, Sequential(endpoints[i + 1..], search, pageNum, server));
    }
  }

  /** The `for (const endpoint of endpoints)` loop of `fetchParts`: each
      endpoint in turn, throwing at the first response that is not OK. */
  method FetchSequential(endpoints: seq<string>, search: string, pageNum: int, server: Request -> Response)
    returns (outcome: Option<seq<Row>>, issued: seq<Request>)
    ensures outcome == Sequential(endpoints, search, pageNum, server)
    ensures issued == Asked(endpoints, search, pageNum, server)
  {
    var allResults := [];
    issued := [];
    var i := 0;
    assert endpoints[0..] == endpoints;
    assert Then([], Sequential(endpoints, search, pageNum, server)) == Sequential(endpoints, search, pageNum, server) by {
      var r := Sequential(endpoints, search, pageNum, server);
      if r.Some? { assert [] + r.value == r.value; }
    }
    while i < |endpoints|
      invariant 0 <= i <= |endpoints|
      invariant Sequential(endpoints, search, pageNum, server) == Then(allResults, Sequential(endpoints[i..], search, pageNum, server))
      invariant Asked(endpoints, search, pageNum, server) == issued + Asked(endpoints[i..], search, pageNum, server)
    {
      var req := PartsRequest(endpoints[i], search, pageNum);
      var res := server(req);
      LoopStep(endpoints, i, search, pageNum, server, allResults, issued);
      issued := issued + [req];
      if !res.Ok? {
        assert issued + [] == issued;
        return None, issued;
      }
      allResults := allResults + res.results;
      i := i + 1;
    }
    assert allResults + [] == allResults;
    outcome := Some(allResults);
  }

  /** The results of every endpoint, one list per endpoint. */
  function ResultLists(endpoints: seq<string>, search: string, pageNum: int, server: Request -> Response): seq<seq<Row>>
  {
    seq(|endpoints|, i requires 0 <= i < |endpoints| =>
      var resp := server(PartsRequest(endpoints[i], search, pageNum));
      if resp.Ok? then resp.results else [])
  }

  /** The loop succeeds exactly when every endpoint answers OK, and then
      yields all their results concatenated in endpoint order. */
  lemma {:induction false} SequentialSpec(endpoints: seq<string>, search: string, pageNum: int, server: Request -> Response)
    ensures Sequential(endpoints, search, pageNum, server).Some? <==>
            forall i :: 0 <= i < |endpoints| ==> server(PartsRequest(endpoints[i], search, pageNum)).Ok?
    ensures Sequential(endpoints, search, pageNum, server).Some? ==>
            Sequential(endpoints, search, pageNum, server).value == Seqs.Flatten(ResultLists(endpoints, search, pageNum, server))
  {
    if endpoints != [] {
      SequentialSpec(endpoints[1..], search, pageNum, server);
      assert ResultLists(endpoints, search, pageNum, server)[1..] == ResultLists(endpoints[1..], search, pageNum, server);
      forall i | 1 <= i < |endpoints| ensures endpoints[i] == endpoints[1..][i - 1] { }
    }
  }

  /** When the spark plug endpoint fails, the filters are never asked. */
  lemma SparkPlugFailureSkipsFilters(search: string, pageNum: int, server: Request -> Response)
    requires !server(PartsRequest("/api/sparkplugs", search, pageNum)).Ok?
    ensures Asked(Endpoints, search, pageNum, server) == [PartsRequest("/api/sparkplugs", search, pageNum)]
    ensures Sequential(Endpoints, search, pageNum, server) == None
  {
  }

  /** `item.Description || item['Part Number'] || 'Unnamed'`. */
  function CardTitle(item: Row): (r: string)
    ensures Truthy(Get(item, "Description")) ==> r == Get(item, "Description").s
    ensures !Truthy(Get(item, "Description")) && Truthy(Get(item, "Part Number")) ==> r == Get(item, "Part Number").s
    ensures !Truthy(Get(item, "Description")) && !Truthy(Get(item, "Part Number")) ==> r == "Unnamed"
  {
    var keys := ["Description", "Part Number"];
    var r := FirstTruthyField(item, keys, "Unnamed");
    assert keys[0] == "Description" && keys[1] == "Part Number";
    r
  }

  /** A card lists the truthy fields other than `sheet` and `source`. */
  function CardFields(item: Row): (r: Row)
    ensures forall i :: 0 <= i < |r| ==> r[i] in item && r[i].key != "sheet" && r[i].key != "source" && Truthy(r[i].value)
    ensures forall i :: 0 <= i < |item| && item[i].key != "sheet" && item[i].key != "source" && Truthy(item[i].value) ==> item[i] in r
  {
    ShownFields(item, true)
  }

  /** "No exact match found." is rendered. */
  predicate NoExactMatchShown(loading: bool, parts: seq<Row>, debouncedSearch: string)
  {
    !loading && |parts| == 0 && debouncedSearch != ""
  }

  /** One call of `fetchParts`: the number of the AbortController it made,
      its term and its page. */
  datatype PartsFetch = PartsFetch(token: nat, search: string, pageNum: int)

  class ServicePartsPage {
    var searchTerm: string
    var debouncedSearch: string
    var parts: seq<Row>
    var page: int
    var hasMore: bool
    var loading: bool
    /** The 300 ms debounce timer is armed. */
    var debouncePending: bool
    /** How many AbortControllers `fetchParts` has made; `controllerRef`
        holds the last one, and only its fetch is not aborted. */
    var controller: nat
    /** The fetches that have not settled yet. */
    var inFlight: set<nat>

    /** Every fetch in flight was made by some call of `fetchParts`. */
    ghost predicate Valid()
      reads this
    {
      forall t :: t in inFlight ==> 1 <= t <= controller
    }

    /** `loading` is set exactly while the current fetch is in flight, which
        is what keeps "Load More" from aborting it. */
    predicate LoadingTracksCurrent()
      reads this
    {
      loading <==> controller in inFlight
    }

    /** While `loading` follows the current fetch, "No exact match found."
        never shows with that fetch still in flight. */
    lemma CurrentFetchHidesNoExactMatch()
      requires LoadingTracksCurrent() && controller in inFlight
      ensures !NoExactMatchShown(loading, parts, debouncedSearch)
    {
    }

    /** The first render. */
    constructor ()
      ensures Valid() && LoadingTracksCurrent()
      ensures searchTerm == "" && debouncedSearch == "" && parts == [] && page == 1 && hasMore
      ensures !loading && !debouncePending && controller == 0 && inFlight == {}
    {
      searchTerm := "";
      debouncedSearch := "";
      parts := [];
      page := 1;
      hasMore := true;
      loading := false;
      debouncePending := false;
      controller := 0;
      inFlight := {};
    }

    /** The effects after the first render: the debounce timer starts and
        the fetch effect asks for page 1 of the (empty) debounced term. */
    method Mount() returns (f: PartsFetch)
      requires Valid()
      modifies this`debouncePending, this`controller, this`inFlight, this`loading
      ensures Valid() && LoadingTracksCurrent()
      ensures debouncePending && loading
      ensures controller == old(controller) + 1 && inFlight == old(inFlight) + {controller}
      ensures f == PartsFetch(controller, debouncedSearch, 1)
    {
      debouncePending := true;
      f := StartFetch(debouncedSearch, 1);
    }

    /** `fetchParts(search, pageNum)` up to its first `await`: the previous
        controller is aborted, a new one is made, loading starts. */
    method StartFetch(search: string, pageNum: int) returns (f: PartsFetch)
      requires Valid()
      modifies this`controller, this`inFlight, this`loading
      ensures Valid() && LoadingTracksCurrent()
      ensures loading
      ensures controller == old(controller) + 1 && inFlight == old(inFlight) + {controller}
      ensures f == PartsFetch(controller, search, pageNum)
    {
      controller := controller + 1;
      inFlight := inFlight + {controller};
      loading := true;
      f := PartsFetch(controller, search, pageNum);
    }

    /** The fetch `f` settles, as written: an aborted fetch changes nothing
        but still runs `finally { setLoading(false) }`; the current one
        applies its outcome (page 1 replaces the list, a later page is
        appended to it, `hasMore` says whether this page had any result) or,
        when an endpoint fails, leaves the list as it is. */
    method Settle(f: PartsFetch, server: Request -> Response)
      requires Valid() && f.token in inFlight
      modifies this`parts, this`hasMore, this`page, this`loading, this`inFlight
      ensures Valid()
      ensures inFlight == old(inFlight) - {f.token} && !loading
      ensures f.token != controller ==> parts == old(parts) && hasMore == old(hasMore) && page == old(page)
      ensures f.token == controller ==> Applied(f, Sequential(Endpoints, f.search, f.pageNum, server), old(parts), old(hasMore), old(page))
    {
      inFlight := inFlight - {f.token};
      if f.token == controller {
        var outcome, issued := FetchSequential(Endpoints, f.search, f.pageNum, server);
        Apply(f, outcome);
      }
      loading := false;
    }

    /** The fetch `f` settles, with `setLoading(false)` left to the fetch
        that is still current: an aborted fetch changes nothing at all. */
    method SettleCorrected(f: PartsFetch, server: Request -> Response)
      requires Valid() && f.token in inFlight
      modifies this`parts, this`hasMore, this`page, this`loading, this`inFlight
      ensures Valid()
      ensures old(LoadingTracksCurrent()) ==> LoadingTracksCurrent()
      ensures inFlight == old(inFlight) - {f.token}
      ensures f.token != controller ==> parts == old(parts) && hasMore == old(hasMore) && page == old(page) && loading == old(loading)
      ensures f.token == controller ==> !loading
      ensures f.token == controller ==> Applied(f, Sequential(Endpoints, f.search, f.pageNum, server), old(parts), old(hasMore), old(page))
    {
      inFlight := inFlight - {f.token};
      if f.token == controller {
        var outcome, issued := FetchSequential(Endpoints, f.search, f.pageNum, server);
        Apply(f, outcome);
        loading := false;
      }
    }

    /** The new list, `hasMore` and page after the current fetch `f` ends
        with `outcome`. */
    ghost predicate Applied(f: PartsFetch, outcome: Option<seq<Row>>, oldParts: seq<Row>, oldHasMore: bool, oldPage: int)
      reads this
    {
      match outcome
      case Some(all) =>
        parts == (if f.pageNum == 1 then all else oldParts + all) && hasMore == (|all| > 0) && page == f.pageNum
      case None =>
        parts == oldParts && hasMore == oldHasMore && page == oldPage
    }

    /** `setParts(prev => ...)`, `setHasMore`, `setPage` after the loop. */
    method Apply(f: PartsFetch, outcome: Option<seq<Row>>)
      modifies this`parts, this`hasMore, this`page
      ensures Applied(f, outcome, old(parts), old(hasMore), old(page))
    {
      if outcome.Some? {
        var all := outcome.value;
        parts := if f.pageNum == 1 then all else parts + all;
        hasMore := |all| > 0;
        page := f.pageNum;
      }
    }

    /** The input's `onChange`: a new term restarts the debounce timer. */
    method Type(s: string)
      modifies this`searchTerm, this`debouncePending
      ensures searchTerm == s
      ensures debouncePending == (old(debouncePending) || s != old(searchTerm))
    {
      if s != searchTerm {
        searchTerm := s;
        debouncePending := true;
      }
    }

    /** The debounce timer fires, as written: the debounced term becomes the
        trimmed input and the page goes back to 1; only a changed term
        re-runs the fetch effect. */
    method Quiesce() returns (f: Option<PartsFetch>)
      requires Valid()
      modifies this`debouncePending, this`debouncedSearch, this`page, this`controller, this`inFlight, this`loading
      ensures Valid()
      ensures old(LoadingTracksCurrent()) ==> LoadingTracksCurrent()
      ensures !debouncePending
      ensures old(debouncePending) ==> debouncedSearch == Trim(searchTerm) && page == 1
      ensures !old(debouncePending) ==> debouncedSearch == old(debouncedSearch) && page == old(page)
      ensures debouncedSearch == old(debouncedSearch) ==>
              f == None && controller == old(controller) && inFlight == old(inFlight) && loading == old(loading)
      ensures debouncedSearch != old(debouncedSearch) ==>
              f == Some(PartsFetch(controller, debouncedSearch, 1)) && loading &&
              controller == old(controller) + 1 && inFlight == old(inFlight) + {controller}
    {
      f := None;
      if debouncePending {
        debouncePending := false;
        var term := Trim(searchTerm);
        page := 1;
        if term != debouncedSearch {
          debouncedSearch := term;
          var g := StartFetch(term, 1);
          f := Some(g);
          assert searchTerm == old(searchTerm) && debouncedSearch == term && page == 1;
        }
      }
    }

    /** The debounce timer fires, with the page reset only together with a
        new term: a term that trims to the one already shown changes nothing. */
    method QuiesceCorrected() returns (f: Option<PartsFetch>)
      requires Valid()
      modifies this`debouncePending, this`debouncedSearch, this`page, this`controller, this`inFlight, this`loading
      ensures Valid()
      ensures old(LoadingTracksCurrent()) ==> LoadingTracksCurrent()
      ensures !debouncePending
      ensures old(debouncePending) ==> debouncedSearch == Trim(searchTerm)
      ensures !old(debouncePending) ==> debouncedSearch == old(debouncedSearch) && page == old(page)
      ensures debouncedSearch == old(debouncedSearch) ==>
              f == None && page == old(page) && controller == old(controller) && inFlight == old(inFlight) && loading == old(loading)
      ensures debouncedSearch != old(debouncedSearch) ==>
              f == Some(PartsFetch(controller, debouncedSearch, 1)) && loading && page == 1 &&
              controller == old(controller) + 1 && inFlight == old(inFlight) + {controller}
    {
      f := None;
      if debouncePending {
        debouncePending := false;
        var term := Trim(searchTerm);
        if term != debouncedSearch {
          debouncedSearch := term;
          page := 1;
          var g := StartFetch(term, 1);
          f := Some(g);
          assert searchTerm == old(searchTerm) && debouncedSearch == term && page == 1;
        }
      }
    }

    /** "Load More": the next page of the debounced term, unless loading or
        the last page came back empty. While the current fetch is in
        flight and `loading` tracks it, nothing is sent. */
    method LoadMore() returns (f: Option<PartsFetch>)
      requires Valid()
      modifies this`controller, this`inFlight, this`loading
      ensures Valid()
      ensures old(LoadingTracksCurrent()) ==> LoadingTracksCurrent()
      ensures (!old(loading) && hasMore) <==> f.Some?
      ensures old(LoadingTracksCurrent()) && old(controller) in old(inFlight) ==> f == None
      ensures f.Some? ==> f.value == PartsFetch(controller, debouncedSearch, page + 1) && loading
      ensures f.Some? ==> controller == old(controller) + 1 && inFlight == old(inFlight) + {controller}
      ensures f.None? ==> controller == old(controller) && inFlight == old(inFlight) && loading == old(loading)
    {
      if !loading && hasMore {
        var g := StartFetch(debouncedSearch, page + 1);
        f := Some(g);
      } else {
        f := None;
      }
    }
  }

  /** A backend stub for the traces below: every endpoint answers OK with
      one row naming the page asked for. */
  function PageRow(n: int): Row
  {
    [Field("page", Str(if n == 1 then "1" else if n == 2 then "2" else "later"))]
  }

  function StubServer(r: Request): Response
  {
    Ok([PageRow(r.page)], true)
  }

  lemma StubPage(search: string, n: int)
    ensures Sequential(Endpoints, search, n, StubServer) == Some([PageRow(n), PageRow(n)])
  {
    var e := Endpoints;
    assert e[1..][1..] == [];
    assert Sequential(e[1..][1..], search, n, StubServer) == Some([]);
    assert StubServer(PartsRequest(e[1..][0], search, n)) == Ok([PageRow(n)], true);
    assert [PageRow(n)] + [] == [PageRow(n)];
    assert StubServer(PartsRequest(e[0], search, n)) == Ok([PageRow(n)], true);
    assert Sequential(e[1..], search, n, StubServer) == Some([PageRow(n)]);
    assert [PageRow(n)] + [PageRow(n)] == [PageRow(n), PageRow(n)];
  }

  /** As written: the mount fetch is aborted by the debounced term's fetch
      but clears `loading` when it settles, so "Load More" runs while page 1
      of the new term is in flight, aborts it, and the list ends up holding
      page 2 of the term without its page 1. */
  method AbortedFetchTrace() returns (p: ServicePartsPage, currentInFlightNotLoading: bool, more: Option<PartsFetch>)
    ensures currentInFlightNotLoading
    ensures more.Some? && p.page == 2 && p.parts == [PageRow(2), PageRow(2)]
  {
    p := new ServicePartsPage();
    var f0 := p.Mount();
    p.Type("x");
    var f1 := p.Quiesce();
    assert f1.Some?;
    p.Settle(f0, StubServer);
    currentInFlightNotLoading := p.controller in p.inFlight && !p.loading;
    more := p.LoadMore();
    StubPage("x", 2);
    p.Settle(more.value, StubServer);
    p.Settle(f1.value, StubServer);
  }

  /** As written: once the aborted mount fetch has settled, "No exact match
      found." shows for the new term while its page 1 is still in flight. */
  method NoExactMatchWhileFetchingTrace() returns (p: ServicePartsPage)
    ensures p.controller in p.inFlight && NoExactMatchShown(p.loading, p.parts, p.debouncedSearch)
  {
    p := new ServicePartsPage();
    var f0 := p.Mount();
    p.Type("x");
    var f1 := p.Quiesce();
    p.Settle(f0, StubServer);
  }

  /** Corrected: with the aborted fetch leaving `loading` alone, the same
      events send no page 2 while page 1 is in flight, and no "No exact
      match found." shows meanwhile. */
  method AbortedFetchTraceCorrected() returns (p: ServicePartsPage, more: Option<PartsFetch>)
    ensures more == None && p.loading && p.LoadingTracksCurrent()
    ensures p.controller in p.inFlight && !NoExactMatchShown(p.loading, p.parts, p.debouncedSearch)
  {
    p := new ServicePartsPage();
    var f0 := p.Mount();
    p.Type("x");
    var f1 := p.Quiesce();
    p.SettleCorrected(f0, StubServer);
    more := p.LoadMore();
  }

  /** Mount, let page 1 arrive and the debounce timer fire: with the page's
      own `Settle` and `Quiesce` when `asWritten`, with the corrected ones
      otherwise. */
  method BrowseFirstPage(asWritten: bool) returns (p: ServicePartsPage)
    ensures fresh(p) && p.Valid() && p.LoadingTracksCurrent()
    ensures p.parts == [PageRow(1), PageRow(1)]
    ensures p.page == 1 && p.hasMore && !p.loading && !p.debouncePending
    ensures p.searchTerm == "" && p.debouncedSearch == ""
  {
    p := new ServicePartsPage();
    var f0 := p.Mount();
    StubPage("", 1);
    if asWritten {
      p.Settle(f0, StubServer);
    } else {
      p.SettleCorrected(f0, StubServer);
    }
    assert p.parts == [PageRow(1), PageRow(1)] && p.page == 1 && p.hasMore && !p.loading;
    var q0;
    if asWritten {
      q0 := p.Quiesce();
    } else {
      q0 := p.QuiesceCorrected();
    }
  }

  /** Then load page 2, settling it in the same way. */
  method BrowseTwoPages(asWritten: bool) returns (p: ServicePartsPage)
    ensures fresh(p) && p.Valid() && p.LoadingTracksCurrent()
    ensures p.parts == [PageRow(1), PageRow(1), PageRow(2), PageRow(2)]
    ensures p.page == 2 && p.hasMore && !p.loading && !p.debouncePending
    ensures p.searchTerm == "" && p.debouncedSearch == ""
  {
    p := BrowseFirstPage(asWritten);
    var m1 := p.LoadMore();
    assert m1 == Some(PartsFetch(p.controller, "", 2));
    StubPage("", 2);
    if asWritten {
      p.Settle(m1.value, StubServer);
    } else {
      p.SettleCorrected(m1.value, StubServer);
    }
    assert p.parts == [PageRow(1), PageRow(1)] + [PageRow(2), PageRow(2)];
  }

  /** As written: typing a character and deleting it again inside the
      debounce window resets the page to 1 without a fetch, so the next
      "Load More" asks for page 2 again and appends it a second time. */
  method RepeatedPageTrace() returns (p: ServicePartsPage)
    ensures p.parts == [PageRow(1), PageRow(1), PageRow(2), PageRow(2), PageRow(2), PageRow(2)]
  {
    p := BrowseTwoPages(true);
    p.Type("a");
    p.Type("");
    var q1 := p.Quiesce();
    var m2 := p.LoadMore();
    p.Settle(m2.value, StubServer);
  }

  /** Corrected: the same events fetch page 3, so every page is listed once. */
  method RepeatedPageTraceCorrected() returns (p: ServicePartsPage)
    ensures p.parts == [PageRow(1), PageRow(1), PageRow(2), PageRow(2), PageRow(3), PageRow(3)]
  {
    p := BrowseTwoPages(false);
    p.Type("a");
    p.Type("");
    var q1 := p.QuiesceCorrected();
    var m2 := p.LoadMore();
    StubPage("", 3);
    p.SettleCorrected(m2.value, StubServer);
  }
}
