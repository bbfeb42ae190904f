/** The engine lookup page: one paged list from `/api/engines`, grown by
    "Load More" and restarted by every keystroke. */
module EnginesPage {
  import opened Records
  import opened ClientResults

  const Endpoint := "/api/engines"

  /** The group of items without a truthy `sheet`. */
  const UnknownGroup := "Unknown"

  /** `fetchEngines(search, pageNum)` sends `page`, `page_size` and, for a
      non-empty term, `q`. */
  function EnginesRequest(search: string, pageNum: int): (r: Request)
    ensures r.endpoint == Endpoint && r.page == pageNum && r.pageSize == 30
    ensures r.q == Missing <==> search == ""
    ensures r.q.Str? ==> r.q.s == search
  {
    Request(Endpoint, QueryParam(search), pageNum, PageSize)
  }

  /** `item.PartNumber || item.Engine || item.OE || 'No title'`. */
  function CardTitle(item: Row): (r: string)
    ensures Truthy(Get(item, "PartNumber")) ==> r == Get(item, "PartNumber").s
    ensures !Truthy(Get(item, "PartNumber")) && Truthy(Get(item, "Engine")) ==> r == Get(item, "Engine").s
    ensures !Truthy(Get(item, "PartNumber")) && !Truthy(Get(item, "Engine")) && Truthy(Get(item, "OE")) ==>
            r == Get(item, "OE").s
    ensures !Truthy(Get(item, "PartNumber")) && !Truthy(Get(item, "Engine")) && !Truthy(Get(item, "OE")) ==>
            r == "No title"
  {
    var keys := ["PartNumber", "Engine", "OE"];
    var r := FirstTruthyField(item, keys, "No title");
    assert keys[0] == "PartNumber" && keys[1] == "Engine" && keys[2] == "OE";
    r
  }

  /** A card lists every field but `sheet` and `source`, falsy ones included. */
  function CardFields(item: Row): (r: Row)
    ensures forall i :: 0 <= i < |r| ==> r[i] in item && r[i].key != "sheet" && r[i].key != "source"
    ensures forall i :: 0 <= i < |item| && item[i].key != "sheet" && item[i].key != "source" ==> item[i] in r
  {
    ShownFields(item, false)
  }

  /** "No matching results found." is rendered instead of any group. */
  predicate NoResultsShown(engines: seq<Row>)
  {
    |GroupOrder(engines, UnknownGroup)| == 0
  }

  /** The message appears exactly when the list is empty, loading or not. */
  lemma NoResultsShownIff(engines: seq<Row>)
    ensures NoResultsShown(engines) <==> engines == []
  {
    GroupOrderEmptyIff(engines, UnknownGroup);
  }

  /** One call of `fetchEngines`: its request, its page number, and the
      `engines` list its closure captured when it was made. */
  datatype EnginesFetch = EnginesFetch(request: Request, pageNum: int, base: seq<Row>)

  class EnginesPage {
    var searchTerm: string
    var engines: seq<Row>
    var page: int
    var hasMore: bool
    var loading: bool

    /** The first render. */
    constructor ()
      ensures searchTerm == "" && engines == [] && page == 1 && hasMore && !loading
    {
      searchTerm := "";
      engines := [];
      page := 1;
      hasMore := true;
      loading := false;
    }

    /** The mount effect: `fetchEngines()` with the current term and page 1. */
    method Mount() returns (f: EnginesFetch)
      modifies this`loading
      ensures loading
      ensures f == EnginesFetch(EnginesRequest(searchTerm, 1), 1, engines)
    {
      f := StartFetch(searchTerm, 1);
    }

    /** `fetchEngines(search, pageNum)` up to its `await`: loading starts and
        the request goes out; nothing is cancelled. */
    method StartFetch(search: string, pageNum: int) returns (f: EnginesFetch)
      modifies this`loading
      ensures loading
      ensures f == EnginesFetch(EnginesRequest(search, pageNum), pageNum, engines)
    {
      loading := true;
      f := EnginesFetch(EnginesRequest(search, pageNum), pageNum, engines);
    }

    /** The fetch `f` resolves with `resp`, whenever that is. Page 1 replaces
        the list, a later page is appended to the list captured when the
        fetch started; a failed fetch changes nothing but `loading`. */
    method Settle(f: EnginesFetch, resp: Response)
      modifies this`engines, this`hasMore, this`page, this`loading
      ensures !loading
      ensures resp.Ok? ==> engines == (if f.pageNum == 1 then resp.results else f.base + resp.results)
      ensures resp.Ok? ==> hasMore == resp.hasMore && page == f.pageNum
      ensures !resp.Ok? ==> engines == old(engines) && hasMore == old(hasMore) && page == old(page)
    {
      if resp.Ok? {
        engines := if f.pageNum == 1 then resp.results else f.base + resp.results;
        hasMore := resp.hasMore;
        page := f.pageNum;
      }
      loading := false;
    }

    /** The input's `onChange`: every keystroke stores the term and fetches
        its page 1 at once, even while another fetch is in flight. */
    method HandleSearch(val: string) returns (f: EnginesFetch)
      modifies this`searchTerm, this`loading
      ensures searchTerm == val && loading
      ensures f == EnginesFetch(EnginesRequest(val, 1), 1, engines)
    {
      searchTerm := val;
      f := StartFetch(val, 1);
    }

    /** "Load More": the next page of the current term, unless a fetch is
        loading or the last page said there is no more. */
    method LoadMore() returns (f: Option<EnginesFetch>)
      modifies this`loading
      ensures (!old(loading) && hasMore) <==> f.Some?
      ensures f.Some? ==> loading && f.value == EnginesFetch(EnginesRequest(searchTerm, page + 1), page + 1, engines)
      ensures f.None? ==> loading == old(loading)
    {
      if !loading && hasMore {
        var g := StartFetch(searchTerm, page + 1);
        f := Some(g);
      } else {
        f := None;
      }
    }
  }
}
