/** The search semantics of the catalog backend's `/api/<key>` routes:
    value normalisation, the row filter, and the offset/limit page. */
module BackendSearch {
  import opened Records
  import opened Text
  import Seqs

  /** The characters the normaliser keeps: `[a-z0-9]`. */
  predicate IsNormChar(c: char)
  {
    'a' <= c <= 'z' || '0' <= c <= '9'
  }

  /** `re.sub(r"[^a-z0-9]", "", s.lower())`. */
  function NormalizeText(s: string): (r: string)
    ensures |r| <= |s|
    ensures forall i :: 0 <= i < |r| ==> IsNormChar(r[i])
  {
    if s == [] then []
    else
      var c := AsciiLower(s[0]);
      (if IsNormChar(c) then [c] else []) + NormalizeText(s[1..])
  }

  /** `normalize(val)`: a missing value normalises to "". */
  function Normalize(v: Value): (r: string)
    ensures v == Missing ==> r == ""
    ensures v.Str? ==> r == NormalizeText(v.s)
  {
    match v
    case Missing => ""
    case Str(s) => NormalizeText(s)
  }

  /** Normalisation is the lower-cased text with every character outside
      `[a-z0-9]` dropped and the others kept in order. */
  lemma {:induction false} NormalizeIsFilteredLower(s: string)
    ensures NormalizeText(s) == Seqs.Filter(IsNormChar, Lower(s))
  {
    if s != [] {
      NormalizeIsFilteredLower(s[1..]);
      assert Lower(s)[1..] == Lower(s[1..]);
    }
  }

  lemma {:induction false} NormalizeAppend(s: string, t: string)
    ensures NormalizeText(s + t) == NormalizeText(s) + NormalizeText(t)
  {
    if s == [] {
      assert s + t == t;
    } else {
      assert (s + t)[1..] == s[1..] + t;
      NormalizeAppend(s[1..], t);
    }
  }

  /** Text made only of `[a-z0-9]` is its own normal form. */
  lemma {:induction false} NormalizeFixesNormalText(s: string)
    requires forall i :: 0 <= i < |s| ==> IsNormChar(s[i])
    ensures NormalizeText(s) == s
  {
    if s != [] {
      NormalizeFixesNormalText(s[1..]);
    }
  }

  /** `normalize` is idempotent. */
  lemma NormalizeIdempotent(v: Value)
    ensures NormalizeText(Normalize(v)) == Normalize(v)
  {
    NormalizeFixesNormalText(Normalize(v));
  }

  /** The two tag columns the filter never searches. */
  predicate IsTagColumn(key: string)
  {
    key == "source" || key == "sheet"
  }

  /** One cell matches: it is not a tag column and its normalised value
      contains the normalised query. */
  predicate CellMatches(f: Field, normQuery: string)
  {
    !IsTagColumn(f.key) && Contains(Normalize(f.value), normQuery)
  }

  /** `any(norm_q in normalize(v) for k, v in row.items() if k not in [...])`. */
  predicate RowMatches(row: Row, normQuery: string)
  {
    exists i :: 0 <= i < |row| && CellMatches(row[i], normQuery)
  }

  /** The rows a search keeps: all of them when `q` is missing or "",
      otherwise the matching rows, in order. */
  function FilterRows(rows: seq<Row>, q: Value): (r: seq<Row>)
    ensures |r| <= |rows|
    ensures !Truthy(q) ==> r == rows
    ensures Truthy(q) ==> forall i :: 0 <= i < |r| ==> r[i] in rows && RowMatches(r[i], Normalize(q))
    ensures Truthy(q) ==> forall i :: 0 <= i < |rows| && RowMatches(rows[i], Normalize(q)) ==> rows[i] in r
  {
    if Truthy(q) then
      var nq := Normalize(q);
      Seqs.Filter((row: Row) => RowMatches(row, nq), rows)
    else rows
  }

  /** Kept rows keep their relative order: filtering distributes over
      concatenation. */
  lemma FilterRowsAppend(a: seq<Row>, b: seq<Row>, q: Value)
    ensures FilterRows(a + b, q) == FilterRows(a, q) + FilterRows(b, q)
  {
    if Truthy(q) {
      var nq := Normalize(q);
      Seqs.FilterAppend((row: Row) => RowMatches(row, nq), a, b);
    }
  }

  /** A row with at least one searchable column. */
  predicate HasSearchableCell(row: Row)
  {
    exists i :: 0 <= i < |row| && !IsTagColumn(row[i].key)
  }

  /** A query such as "---" that normalises to "" keeps exactly the rows that
      have a searchable column; when every row has one, it keeps them all. */
  lemma EmptyNormalQueryKeepsAll(rows: seq<Row>, q: Value)
    requires Truthy(q) && Normalize(q) == ""
    requires forall i :: 0 <= i < |rows| ==> HasSearchableCell(rows[i])
    ensures FilterRows(rows, q) == rows
  {
    var nq := Normalize(q);
    forall i | 0 <= i < |rows| ensures RowMatches(rows[i], nq) {
      var j :| 0 <= j < |rows[i]| && !IsTagColumn(rows[i][j].key);
      assert OccursAt(Normalize(rows[i][j].value), nq, 0);
      assert CellMatches(rows[i][j], nq);
    }
    Seqs.FilterAll((row: Row) => RowMatches(row, nq), rows);
  }

  /** A row made only of tag columns never matches a non-empty query, not
      even one that normalises to "". */
  lemma TagOnlyRowNeverMatches(row: Row, q: Value)
    requires Truthy(q) && !HasSearchableCell(row)
    ensures FilterRows([row], q) == []
  {
    assert !RowMatches(row, Normalize(q));
  }

  /** Python's clamping of one slice bound to `[0, n]`, negative bounds
      counting from the end. */
  function SliceBound(i: int, n: nat): (b: nat)
    ensures b <= n
    ensures 0 <= i <= n ==> b == i
    ensures i > n ==> b == n
    ensures i < 0 ==> b == if i + n < 0 then 0 else i + n
  {
    if i < 0 then (if i + n < 0 then 0 else i + n)
    else if i > n then n
    else i
  }

  /** `s[start:end]` / `df.iloc[start:end]` with Python's semantics. */
  function PySlice<T>(s: seq<T>, start: int, end: int): (r: seq<T>)
    ensures |r| <= |s|
  {
    var a := SliceBound(start, |s|);
    var b := SliceBound(end, |s|);
    if a < b then s[a..b] else []
  }

  /** The JSON body of a successful search. */
  datatype SearchPage = SearchPage(results: seq<Row>, total: nat, page: int, pageSize: int, hasMore: bool)

  function Min(a: int, b: int): int { if a <= b then a else b }

  /** `start = (page - 1) * page_size`: the first row of page `page`. */
  function PageStart(page: int, pageSize: int): (s: int)
    ensures page >= 1 && pageSize >= 0 ==> s >= 0
  {
    (page - 1) * pageSize
  }

  /** `end = start + page_size`, which is `page * page_size`. */
  function PageEnd(page: int, pageSize: int): (e: int)
    ensures e == PageStart(page, pageSize) + pageSize
    ensures page >= 0 && pageSize >= 0 ==> e >= 0
  {
    page * pageSize
  }

  /** The body of a search route once its data is loaded: filter, then cut
      out page `page` of `pageSize` rows. */
  function Search(rows: seq<Row>, q: Value, page: int, pageSize: int): (r: SearchPage)
    ensures r.total == |FilterRows(rows, q)|
    ensures r.page == page && r.pageSize == pageSize
    ensures r.hasMore <==> PageEnd(page, pageSize) < r.total
    ensures page >= 1 && pageSize >= 0 ==>
      r.results == FilterRows(rows, q)[Min(PageStart(page, pageSize), r.total)..Min(PageEnd(page, pageSize), r.total)]
    ensures page >= 1 && pageSize >= 0 ==> |r.results| <= pageSize
  {
    var matched := FilterRows(rows, q);
    var total := |matched|;
    var start := PageStart(page, pageSize);
    var end := start + pageSize;
    SearchPage(PySlice(matched, start, end), total, page, pageSize, end < total)
  }

  /** Page 0 is empty, yet reports more data whenever anything matched. */
  lemma ZeroPage(rows: seq<Row>, q: Value, pageSize: int)
    requires pageSize >= 0
    ensures Search(rows, q, 0, pageSize).results == []
    ensures Search(rows, q, 0, pageSize).hasMore <==> |FilterRows(rows, q)| > 0
  {
  }

  /** Everything pages 1..n returned, concatenated. */
  function PagesUpTo(rows: seq<Row>, q: Value, pageSize: int, n: nat): seq<Row>
  {
    if n == 0 then [] else PagesUpTo(rows, q, pageSize, n - 1) + Search(rows, q, n, pageSize).results
  }

  /** Reading pages 1, 2, ..., n in turn gives the first `n * pageSize`
      matches in order, with no gap and no repetition. */
  lemma {:induction false} PagesTileMatches(rows: seq<Row>, q: Value, pageSize: int, n: nat)
    requires pageSize >= 0
    ensures PagesUpTo(rows, q, pageSize, n) ==
            FilterRows(rows, q)[..Min(PageEnd(n, pageSize), |FilterRows(rows, q)|)]
  {
    var matched := FilterRows(rows, q);
    if n > 0 {
      PagesTileMatches(rows, q, pageSize, n - 1);
      var a := Min(PageEnd(n - 1, pageSize), |matched|);
      var b := Min(PageEnd(n, pageSize), |matched|);
      assert PageEnd(n - 1, pageSize) == PageStart(n, pageSize);
      assert a <= b;
      assert Search(rows, q, n, pageSize).results == matched[a..b];
      assert PagesUpTo(rows, q, pageSize, n) == matched[..a] + matched[a..b];
      assert matched[..a] + matched[a..b] == matched[..b];
    }
  }
}
