/** The backend's workbook cache: flattening a workbook's sheets into one table,
    loading the configured workbooks at start-up, the `/api/refresh/{key}`
    route, and the dispatch of the search routes. */
module BackendCatalog {
  import opened Records
  import opened BackendSearch
  import Seqs

  /** One sheet of a workbook as `pd.read_excel(path, sheet_name=None)`
      returns it; a workbook is its sheets, in workbook order. */
  datatype Sheet = Sheet(name: string, rows: seq<Row>)

  /** What `pd.read_excel(path, sheet_name=None)` makes of an existing file:
      a workbook, given as its sheets, or a file it cannot read (a CSV stored
      under an `.xlsx` name, say), given by the text of the exception raised. */
  datatype Workbook = Readable(sheets: seq<Sheet>) | Unreadable(reason: string)

  /** The files by path. A path that is absent does not exist. */
  type Disk = map<string, Workbook>

  /** `df["source"] = source_label; df["sheet"] = sheet_name` for one row. */
  function TagRow(row: Row, sourceLabel: string, sheetName: string): (r: Row)
    ensures Get(r, "source") == Str(sourceLabel)
    ensures Get(r, "sheet") == Str(sheetName)
    ensures forall k :: k != "source" && k != "sheet" ==> Get(r, k) == Get(row, k)
    ensures UniqueKeys(row) ==> UniqueKeys(r)
  {
    Set(Set(row, "source", Str(sourceLabel)), "sheet", Str(sheetName))
  }

  function TagSheet(sheet: Sheet, sourceLabel: string): seq<Row>
  {
    seq(|sheet.rows|, j requires 0 <= j < |sheet.rows| => TagRow(sheet.rows[j], sourceLabel, sheet.name))
  }

  function TaggedSheets(sheets: seq<Sheet>, sourceLabel: string): seq<seq<Row>>
  {
    seq(|sheets|, i requires 0 <= i < |sheets| => TagSheet(sheets[i], sourceLabel))
  }

  /** What `flatten_excel` returns: every sheet's rows tagged, the sheets
      concatenated in workbook order. */
  function Flattened(sheets: seq<Sheet>, sourceLabel: string): seq<Row>
  {
    Seqs.Flatten(TaggedSheets(sheets, sourceLabel))
  }

  function TotalRows(sheets: seq<Sheet>): nat
  {
    if sheets == [] then 0 else |sheets[0].rows| + TotalRows(sheets[1..])
  }

  /** `flatten_excel(sheet_dict, source_label)`. `pd.concat` of no frames
      raises, so a workbook without sheets gives None. */
  method FlattenExcel(sheets: seq<Sheet>, sourceLabel: string) returns (r: Option<seq<Row>>)
    ensures r.None? <==> sheets == []
    ensures r.Some? ==> r.value == Flattened(sheets, sourceLabel)
  {
    var allRows: seq<seq<Row>> := [];
    var i := 0;
    while i < |sheets|
      invariant 0 <= i <= |sheets|
      invariant allRows == TaggedSheets(sheets[..i], sourceLabel)
    {
      allRows := allRows + [TagSheet(sheets[i], sourceLabel)];
      i := i + 1;
      assert TaggedSheets(sheets[..i], sourceLabel) == TaggedSheets(sheets[..i - 1], sourceLabel) + [TagSheet(sheets[i - 1], sourceLabel)];
    }
    assert sheets[..i] == sheets;
    if allRows == [] {
      return None;
    }
    return Some(Seqs.Flatten(allRows));
  }

  lemma {:induction false} TotalRowsIsSumLengths(sheets: seq<Sheet>, sourceLabel: string)
    ensures Seqs.SumLengths(TaggedSheets(sheets, sourceLabel)) == TotalRows(sheets)
  {
    if sheets != [] {
      assert TaggedSheets(sheets, sourceLabel)[1..] == TaggedSheets(sheets[1..], sourceLabel);
      TotalRowsIsSumLengths(sheets[1..], sourceLabel);
    }
  }

  /** The flattened table has one row per row of every sheet. */
  lemma FlattenedLength(sheets: seq<Sheet>, sourceLabel: string)
    ensures |Flattened(sheets, sourceLabel)| == TotalRows(sheets)
  {
    TotalRowsIsSumLengths(sheets, sourceLabel);
  }

  /** Row `j` of sheet `i` comes, tagged, right after the rows of the sheets
      before it. */
  lemma FlattenedAt(sheets: seq<Sheet>, sourceLabel: string, i: nat, j: nat)
    requires i < |sheets| && j < |sheets[i].rows|
    ensures TotalRows(sheets[..i]) + j < |Flattened(sheets, sourceLabel)|
    ensures Flattened(sheets, sourceLabel)[TotalRows(sheets[..i]) + j] ==
            TagRow(sheets[i].rows[j], sourceLabel, sheets[i].name)
  {
    var ss := TaggedSheets(sheets, sourceLabel);
    Seqs.FlattenAt(ss, i, j);
    PrefixRows(sheets, sourceLabel, i);
  }

  /** The tagged sheets before sheet `i` hold as many rows as the sheets
      before it. */
  lemma PrefixRows(sheets: seq<Sheet>, sourceLabel: string, i: nat)
    requires i <= |sheets|
    ensures Seqs.SumLengths(TaggedSheets(sheets, sourceLabel)[..i]) == TotalRows(sheets[..i])
  {
    TaggedPrefix(sheets, sourceLabel, i);
    TotalRowsIsSumLengths(sheets[..i], sourceLabel);
  }

  lemma TaggedPrefix(sheets: seq<Sheet>, sourceLabel: string, i: nat)
    requires i <= |sheets|
    ensures TaggedSheets(sheets, sourceLabel)[..i] == TaggedSheets(sheets[..i], sourceLabel)
  {
    var a := TaggedSheets(sheets, sourceLabel)[..i];
    var b := TaggedSheets(sheets[..i], sourceLabel);
    assert |a| == |b|;
    forall k | 0 <= k < i ensures a[k] == b[k] {
      assert sheets[..i][k] == sheets[k];
    }
  }

  /** Every flattened row carries `source = sourceLabel` and the name of a sheet it
      came from. */
  lemma FlattenedRowsTagged(sheets: seq<Sheet>, sourceLabel: string, k: nat)
    requires k < |Flattened(sheets, sourceLabel)|
    ensures Get(Flattened(sheets, sourceLabel)[k], "source") == Str(sourceLabel)
    ensures exists i :: 0 <= i < |sheets| && Get(Flattened(sheets, sourceLabel)[k], "sheet") == Str(sheets[i].name)
  {
    var ss := TaggedSheets(sheets, sourceLabel);
    Seqs.FlattenMember(ss, Flattened(sheets, sourceLabel)[k]);
    var i :| 0 <= i < |ss| && Flattened(sheets, sourceLabel)[k] in ss[i];
    var j :| 0 <= j < |ss[i]| && ss[i][j] == Flattened(sheets, sourceLabel)[k];
    assert ss[i][j] == TagRow(sheets[i].rows[j], sourceLabel, sheets[i].name);
  }

  /** One entry of `EXCEL_FILES`. */
  datatype ExcelFile = ExcelFile(key: string, path: string, sourceLabel: string)

  /** `EXCEL_FILES`, in its declaration order. */
  const ExcelFiles: seq<ExcelFile> := [
    ExcelFile("engines", "data/engines.xlsx", "Engines"),
    ExcelFile("filters", "data/filters.xlsx", "Filters"),
    ExcelFile("sparkplugs", "data/sparkplugs.xlsx", "Spark Plugs")
  ]

  /** `EXCEL_FILES[key]`, when `key` is one of its keys. */
  function LookupFile(key: string): (r: Option<ExcelFile>)
    ensures r.Some? <==> exists i :: 0 <= i < |ExcelFiles| && ExcelFiles[i].key == key
    ensures r.Some? ==> r.value in ExcelFiles && r.value.key == key
  {
    if key == "engines" then Some(ExcelFiles[0])
    else if key == "filters" then Some(ExcelFiles[1])
    else if key == "sparkplugs" then Some(ExcelFiles[2])
    else None
  }

  lemma ExcelFilesLookup(i: nat)
    requires i < |ExcelFiles|
    ensures LookupFile(ExcelFiles[i].key) == Some(ExcelFiles[i])
    ensures forall j :: 0 <= j < |ExcelFiles| && j != i ==> ExcelFiles[j].key != ExcelFiles[i].key
  {
    assert ExcelFiles[0].key[0] == 'e' && ExcelFiles[1].key[0] == 'f' && ExcelFiles[2].key[0] == 's';
  }

  /** Every catalog workbook lives at `data/<key>.xlsx`. */
  lemma ExcelFilePath(key: string)
    requires LookupFile(key).Some?
    ensures LookupFile(key).value.path == "data/" + key + ".xlsx"
  {
    var i :| 0 <= i < |ExcelFiles| && ExcelFiles[i].key == key;
    ExcelFilesLookup(i);
    ExcelFilePathAt(i);
  }

  lemma ExcelFilePathAt(i: nat)
    requires i < |ExcelFiles|
    ensures ExcelFiles[i].path == "data/" + ExcelFiles[i].key + ".xlsx"
  {
    if i == 0 {
      assert "data/engines.xlsx" == "data/" + "engines" + ".xlsx";
    } else if i == 1 {
      assert "data/filters.xlsx" == "data/" + "filters" + ".xlsx";
    } else {
      assert "data/sparkplugs.xlsx" == "data/" + "sparkplugs" + ".xlsx";
    }
  }

  /** Why `load_excel_data` raised: the existence check, `pd.read_excel`, or
      `pd.concat` of no sheets. */
  datatype LoadError = FileNotFound(path: string) | ReadFailed(reason: string) | NoObjectsToConcatenate

  /** The exception text `str(e)` of a failed load. */
  function ErrorText(e: LoadError): string
  {
    match e
    case FileNotFound(path) => "File not found: " + path
    case ReadFailed(reason) => reason
    case NoObjectsToConcatenate => "No objects to concatenate"
  }

  /** The failure loading `f` from `disk` raises, when it fails. */
  function LoadFailure(disk: Disk, f: ExcelFile): (e: LoadError)
    ensures e.FileNotFound? <==> f.path !in disk
    ensures e.ReadFailed? <==> f.path in disk && disk[f.path].Unreadable?
    ensures e.ReadFailed? ==> e.reason == disk[f.path].reason
    ensures e.FileNotFound? ==> e.path == f.path
  {
    if f.path !in disk then FileNotFound(f.path)
    else if disk[f.path].Unreadable? then ReadFailed(disk[f.path].reason)
    else NoObjectsToConcatenate
  }

  /** The backend's own failures give different texts: the reply says which
      file is missing, and a missing file is never confused with an empty
      workbook. (pandas' texts are whatever pandas raises.) */
  lemma ErrorTextInjective(a: LoadError, b: LoadError)
    ensures !a.ReadFailed? && !b.ReadFailed? && ErrorText(a) == ErrorText(b) ==> a == b
  {
    if !a.ReadFailed? && !b.ReadFailed? {
      assert ErrorText(a)[0] == (if a.FileNotFound? then 'F' else 'N');
      assert ErrorText(b)[0] == (if b.FileNotFound? then 'F' else 'N');
      if a.FileNotFound? && b.FileNotFound? {
        assert ErrorText(a)[16..] == a.path;
        assert ErrorText(b)[16..] == b.path;
      }
    }
  }

  /** What loading a configured workbook yields. */
  function LoadResult(disk: Disk, f: ExcelFile): (r: Option<seq<Row>>)
  {
    if f.path in disk && disk[f.path].Readable? && disk[f.path].sheets != [] then Some(Flattened(disk[f.path].sheets, f.sourceLabel)) else None
  }

  /** The keys whose route start-up registers after the first `n` files:
      those that loaded, in order. */
  function LoadedKeys(disk: Disk, files: seq<ExcelFile>, n: nat): seq<string>
    requires n <= |files|
  {
    if n == 0 then []
    else LoadedKeys(disk, files, n - 1) + (if LoadResult(disk, files[n - 1]).Some? then [files[n - 1].key] else [])
  }

  /** `c` holds exactly what loading `f` from `disk` yields. */
  predicate Agrees(c: map<string, seq<Row>>, disk: Disk, f: ExcelFile)
  {
    (f.key in c <==> LoadResult(disk, f).Some?) &&
    (f.key in c ==> c[f.key] == LoadResult(disk, f).value)
  }

  /** No two entries of `files` share a key. */
  predicate DistinctKeys(files: seq<ExcelFile>)
  {
    forall i, j :: 0 <= i < j < |files| ==> files[i].key != files[j].key
  }

  lemma ExcelFilesDistinct()
    ensures DistinctKeys(ExcelFiles)
    ensures forall i :: 0 <= i < |ExcelFiles| ==> LookupFile(ExcelFiles[i].key) == Some(ExcelFiles[i])
  {
    forall i | 0 <= i < |ExcelFiles| ensures LookupFile(ExcelFiles[i].key) == Some(ExcelFiles[i]) {
      ExcelFilesLookup(i);
    }
    assert ExcelFiles[0].key[0] == 'e' && ExcelFiles[1].key[0] == 'f' && ExcelFiles[2].key[0] == 's';
  }

  /** The cache `c` after loading `f`: its key takes the new table when the
      load succeeds, and nothing changes when it fails. */
  function LoadInto(c: map<string, seq<Row>>, disk: Disk, f: ExcelFile): (r: map<string, seq<Row>>)
    ensures LoadResult(disk, f).Some? ==> f.key in r && r[f.key] == LoadResult(disk, f).value
    ensures forall k :: k != f.key ==> (k in r <==> k in c) && (k in r ==> r[k] == c[k])
    ensures LoadResult(disk, f).None? ==> r == c
  {
    match LoadResult(disk, f)
    case Some(rows) => c[f.key := rows]
    case None => c
  }

  /** The cache after loading the first `n` files in order into an empty one. */
  function LoadedCache(disk: Disk, files: seq<ExcelFile>, n: nat): map<string, seq<Row>>
    requires n <= |files|
  {
    if n == 0 then map[] else LoadInto(LoadedCache(disk, files, n - 1), disk, files[n - 1])
  }

  /** Loading files with distinct keys leaves each loaded one's key holding
      what loading it yields, and no other key. */
  lemma {:induction false} LoadedCacheAgrees(disk: Disk, files: seq<ExcelFile>, n: nat)
    requires n <= |files| && DistinctKeys(files)
    ensures forall i :: 0 <= i < n ==> Agrees(LoadedCache(disk, files, n), disk, files[i])
    ensures forall k :: k in LoadedCache(disk, files, n) ==> exists i :: 0 <= i < n && files[i].key == k
  {
    if n > 0 {
      LoadedCacheAgrees(disk, files, n - 1);
      var c := LoadedCache(disk, files, n - 1);
      forall i | 0 <= i < n ensures Agrees(LoadedCache(disk, files, n), disk, files[i]) {
        if i < n - 1 {
          KeepAgrees(c, disk, files[i], files[n - 1]);
        }
      }
      forall k | k in LoadedCache(disk, files, n) ensures exists i :: 0 <= i < n && files[i].key == k {
        if k != files[n - 1].key {
          assert k in c;
        }
      }
    }
  }

  /** Every key that gets a route has a cache entry. */
  lemma {:induction false} LoadedKeysCached(disk: Disk, files: seq<ExcelFile>, n: nat)
    requires n <= |files|
    ensures forall k :: k in LoadedKeys(disk, files, n) ==> k in LoadedCache(disk, files, n)
  {
    if n > 0 {
      LoadedKeysCached(disk, files, n - 1);
    }
  }

  /** Loading another file, under another key, keeps `f`'s entry. */
  lemma KeepAgrees(c: map<string, seq<Row>>, disk: Disk, f: ExcelFile, g: ExcelFile)
    requires Agrees(c, disk, f) && f.key != g.key
    ensures Agrees(LoadInto(c, disk, g), disk, f)
  {
  }

  /** The response of `POST /api/refresh/{key}`. */
  datatype RefreshResponse =
    | UnknownKey(key: string)
    | Reloaded(rows: nat)
    | ReloadFailed(error: string)
  {
    function Status(): int
    {
      match this
      case UnknownKey(_) => 404
      case Reloaded(_) => 200
      case ReloadFailed(_) => 500
    }
  }

  /** The response of `GET /api/{key}`. */
  datatype RouteResponse =
    | NoRoute                 // no route was registered: FastAPI's 404 Not Found
    | NotLoaded(key: string)  // 404 {"error": "<key> not loaded"}
    | Found(page: SearchPage)

  class CatalogBackend {
    /** `excel_data`: the flattened table of every loaded key. */
    var cache: map<string, seq<Row>>
    /** The keys for which `/api/<key>` was registered at start-up, in order. */
    var routes: seq<string>

    ghost predicate Valid()
      reads this
    {
      (forall k :: k in routes ==> k in cache) &&
      (forall k :: k in cache ==> LookupFile(k).Some?)
    }

    /** The cache holds exactly what loading `f` from `disk` yields. */
    ghost predicate CachedAsLoaded(disk: Disk, f: ExcelFile)
      reads this
    {
      Agrees(cache, disk, f)
    }

    /** Module start-up: load every configured workbook in order, registering
        a search route for each one that loaded. */
    constructor (disk: Disk)
      ensures Valid()
      ensures routes == LoadedKeys(disk, ExcelFiles, |ExcelFiles|)
      ensures cache == LoadedCache(disk, ExcelFiles, |ExcelFiles|)
      ensures forall i :: 0 <= i < |ExcelFiles| ==> CachedAsLoaded(disk, ExcelFiles[i])
    {
      cache := map[];
      routes := [];
      new;
      ExcelFilesDistinct();
      var i := 0;
      while i < |ExcelFiles|
        invariant 0 <= i <= |ExcelFiles|
        invariant routes == LoadedKeys(disk, ExcelFiles, i)
        invariant cache == LoadedCache(disk, ExcelFiles, i)
      {
        var f := ExcelFiles[i];
        var err := LoadExcelData(f.key, f.path, f.sourceLabel, disk);
        if err.None? {
          routes := routes + [f.key];
        }
        i := i + 1;
      }
      LoadedCacheAgrees(disk, ExcelFiles, |ExcelFiles|);
      LoadedKeysCached(disk, ExcelFiles, |ExcelFiles|);
      forall k | k in cache ensures LookupFile(k).Some? {
        var j :| 0 <= j < |ExcelFiles| && ExcelFiles[j].key == k;
      }
    }

    /** `load_excel_data(key, path, sourceLabel)`: on success the table replaces
        the cached one; on failure the cache is unchanged. */
    method LoadExcelData(key: string, path: string, sourceLabel: string, disk: Disk) returns (err: Option<LoadError>)
      modifies this`cache
      ensures err.None? <==> LoadResult(disk, ExcelFile(key, path, sourceLabel)).Some?
      ensures err == Some(FileNotFound(path)) <==> path !in disk
      ensures path in disk && disk[path].Unreadable? ==> err == Some(ReadFailed(disk[path].reason))
      ensures path in disk && disk[path].Readable? ==> (err == Some(NoObjectsToConcatenate) <==> disk[path].sheets == [])
      ensures routes == old(routes)
      ensures cache == LoadInto(old(cache), disk, ExcelFile(key, path, sourceLabel))
    {
      if path !in disk {
        return Some(FileNotFound(path));
      }
      if disk[path].Unreadable? {
        return Some(ReadFailed(disk[path].reason));
      }
      var rows := FlattenExcel(disk[path].sheets, sourceLabel);
      if rows.None? {
        return Some(NoObjectsToConcatenate);
      }
      cache := cache[key := rows.value];
      return None;
    }

    /** `refresh_file(key)`: an unknown key answers 404 and leaves the cache
        alone; a known key reloads its workbook. */
    method Refresh(key: string, disk: Disk) returns (r: RefreshResponse)
      requires Valid()
      modifies this`cache
      ensures Valid()
      ensures LookupFile(key).None? ==> r == UnknownKey(key) && r.Status() == 404 && cache == old(cache)
      ensures LookupFile(key).Some? ==>
        var f := LookupFile(key).value;
        match LoadResult(disk, f)
        case Some(rows) => r == Reloaded(|rows|) && cache == old(cache)[key := rows]
        case None =>
          r == ReloadFailed(ErrorText(LoadFailure(disk, f))) &&
          r.Status() == 500 && cache == old(cache)
    {
      var file := LookupFile(key);
      if file.None? {
        return UnknownKey(key);
      }
      var f := file.value;
      var err := LoadExcelData(key, f.path, f.sourceLabel, disk);
      if err.Some? {
        return ReloadFailed(ErrorText(err.value));
      }
      return Reloaded(|cache[key]|);
    }

    /** `GET /api/{key}?q=..&page=..&page_size=..`. */
    function Route(key: string, q: Value, page: int, pageSize: int): (r: RouteResponse)
      reads this
      ensures key !in routes ==> r == NoRoute
      ensures key in routes && key !in cache ==> r == NotLoaded(key)
      ensures Valid() && key in routes ==> r.Found? && r.page == Search(cache[key], q, page, pageSize)
    {
      if key !in routes then NoRoute
      else if key !in cache then NotLoaded(key)
      else Found(Search(cache[key], q, page, pageSize))
    }
  }
}
