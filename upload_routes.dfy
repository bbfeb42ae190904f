/** The upload route: where an uploaded workbook is stored, which catalog
    key it asks the search backend to reload, and what it answers. */
module UploadRoutes {
  import opened Records
  import opened Text
  import BackendCatalog

  /** `name` without its trailing `/` characters. */
  function StripTrailingSlashes(name: string): (r: string)
    ensures |r| <= |name| && r == name[..|r|]
    ensures r == [] || r[|r| - 1] != '/'
    ensures forall i :: |r| <= i < |name| ==> name[i] == '/'
  {
    if name != [] && name[|name| - 1] == '/' then StripTrailingSlashes(name[..|name| - 1]) else name
  }

  /** Node's `path.basename(name)`: the last `/`-separated component, trailing
      slashes ignored. */
  function BaseName(name: string): (r: string)
    ensures '/' !in r
  {
    LastSegment(StripTrailingSlashes(name))
  }

  /** The index of the last `.` of `c`. */
  function LastDot(c: string): (r: Option<nat>)
    ensures r.Some? ==> r.value < |c| && c[r.value] == '.' && forall i :: r.value < i < |c| ==> c[i] != '.'
    ensures r.None? ==> forall i :: 0 <= i < |c| ==> c[i] != '.'
  {
    if c == [] then None
    else if c[|c| - 1] == '.' then Some(|c| - 1)
    else LastDot(c[..|c| - 1])
  }

  /** Node's `path.extname` of a path whose last component is `c`: from the
      last `.` of `c` to its end, or `""` when `c` has no `.`, its last `.`
      is its first character (a dot file such as `.env`), or `c` is `..`.
      So a non-empty extension holds one `.` and leaves part of `c` before it. */
  function ExtOf(c: string): (e: string)
    ensures e != "" ==> |e| < |c| && e[0] == '.' && e == c[|c| - |e|..]
    ensures e != "" ==> forall i :: 1 <= i < |e| ==> e[i] != '.'
  {
    match LastDot(c)
    case None => ""
    case Some(d) => if d == 0 || c == ".." then "" else c[d..]
  }

  /** `path.basename` of such a path with that extension taken off. */
  function StemOf(c: string): (r: string)
    ensures r + ExtOf(c) == c
    ensures r == "" <==> c == ""
  {
    var e := ExtOf(c);
    assert c[..|c| - |e|] + c[|c| - |e|..] == c;
    c[..|c| - |e|]
  }

  /** `path.extname(name)`. */
  function ExtName(name: string): (e: string)
    ensures var b := BaseName(name); e != "" ==> |e| < |b| && e[0] == '.' && e == b[|b| - |e|..]
    ensures e != "" ==> forall i :: 1 <= i < |e| ==> e[i] != '.'
  {
    ExtOf(BaseName(name))
  }

  /** `path.basename(name, path.extname(name))`: the base name without its
      extension, empty only when the base name is. */
  function Stem(name: string): (r: string)
    ensures r + ExtName(name) == BaseName(name)
    ensures r == "" <==> BaseName(name) == ""
  {
    StemOf(BaseName(name))
  }

  /** The multer `filename`: the stem with `.xlsx` appended. */
  function StoredName(originalName: string): (r: string)
    ensures |r| >= 5 && r[|r| - 5..] == ".xlsx"
    ensures r[..|r| - 5] == Stem(originalName)
  {
    Stem(originalName) + ".xlsx"
  }

  /** `baseName`: the stem, lower-cased. */
  function RefreshKey(originalName: string): (r: string)
    ensures |r| == |Stem(originalName)|
    ensures forall i :: 0 <= i < |r| ==> r[i] == AsciiLower(Stem(originalName)[i])
  {
    Lower(Stem(originalName))
  }

  /** The answer of the upload route and the reload notification it sent. */
  datatype UploadReply = UploadReply(status: int, message: string, notified: Option<string>)

  /** The route handler. `file` is the uploaded file's original name, if a
      file came with the request; `notifyFailed` is whether the POST to the
      search backend threw, which is only logged. */
  function HandleUpload(file: Option<string>, notifyFailed: bool): (r: UploadReply)
    ensures file.None? ==> r == UploadReply(400, "No file uploaded", None)
    ensures file.Some? ==> r.status == 200 && r.message == "Uploaded and refreshed " + file.value
    ensures file.Some? ==> r.notified == Some("/api/refresh/" + RefreshKey(file.value))
  {
    match file
    case None => UploadReply(400, "No file uploaded", None)
    case Some(name) => UploadReply(200, "Uploaded and refreshed " + name, Some("/api/refresh/" + RefreshKey(name)))
  }

  /** A failed notification does not change the answer: the route's `catch`
      only logs, so the reply never depends on the notification's outcome,
      and `HandleUpload` does not read `notifyFailed`. */
  lemma NotifyFailureIgnored(file: Option<string>)
    ensures HandleUpload(file, true) == HandleUpload(file, false)
  {
  }

  /** A name without a `.` in its base name is kept whole. */
  lemma NoExtensionKept(name: string)
    requires forall i :: 0 <= i < |BaseName(name)| ==> BaseName(name)[i] != '.'
    ensures ExtName(name) == "" && StoredName(name) == BaseName(name) + ".xlsx"
  {
    assert LastDot(BaseName(name)).None?;
  }

  /** Everything before the last extension is kept, earlier dots included. */
  lemma OnlyLastExtensionRemoved(stem: string, ext: string)
    requires '/' !in stem && '/' !in ext
    requires stem != [] && stem + ext != ".."
    requires ext != [] && ext[0] == '.' && forall i :: 1 <= i < |ext| ==> ext[i] != '.'
    ensures ExtName(stem + ext) == ext
    ensures StoredName(stem + ext) == stem + ".xlsx"
  {
    var c := stem + ext;
    assert '/' !in c by {
      forall i | 0 <= i < |c| ensures c[i] != '/' {
        if i < |stem| { assert c[i] == stem[i]; } else { assert c[i] == ext[i - |stem|]; }
      }
    }
    assert c[|c| - 1] != '/';
    assert StripTrailingSlashes(c) == c;
    LastSegmentWhole(c);
    assert BaseName(c) == c;
    StemOfSplit(stem, ext);
    assert Stem(c) == stem;
  }

  /** The extension of `stem + ext` is `ext` when `ext` is a `.` followed by
      no other `.`, and the whole is not `..`. A stem may itself start with
      `.`: `.profile` and `.csv` split back into the two. */
  lemma StemOfSplit(stem: string, ext: string)
    requires stem != [] && stem + ext != ".."
    requires ext != [] && ext[0] == '.' && forall i :: 1 <= i < |ext| ==> ext[i] != '.'
    ensures ExtOf(stem + ext) == ext && StemOf(stem + ext) == stem
  {
    var c := stem + ext;
    var d := LastDot(c);
    assert d == Some(|stem|) by {
      assert c[|stem|] == '.';
      LastDotAfter(c, |stem|);
    }
    assert c[|stem|..] == ext;
  }

  /** A string without `/` is its own last segment. */
  lemma LastSegmentWhole(s: string)
    requires '/' !in s
    ensures LastSegment(s) == s
  {
    var r := LastSegment(s);
    assert forall i :: 0 <= i < |s| ==> s[i] != '/';
    assert |r| == |s|;
  }

  lemma LastDotAfter(c: string, k: nat)
    requires k < |c| && c[k] == '.'
    requires forall i :: k < i < |c| ==> c[i] != '.'
    ensures LastDot(c) == Some(k)
  {
  }

  lemma ExampleCsv()
    ensures StoredName("Engines Master.csv") == "Engines Master.xlsx"
  {
    OnlyLastExtensionRemoved("Engines Master", ".csv");
    assert "Engines Master" + ".csv" == "Engines Master.csv";
  }

  lemma ExampleTwoDots()
    ensures StoredName("a.b.csv") == "a.b.xlsx"
  {
    OnlyLastExtensionRemoved("a.b", ".csv");
    assert "a.b" + ".csv" == "a.b.csv";
  }

  lemma ExampleNoDot()
    ensures StoredName("Filters") == "Filters.xlsx"
  {
    assert StripTrailingSlashes("Filters") == "Filters";
    LastSegmentWhole("Filters");
    NoExtensionKept("Filters");
  }

  /** A dot file keeps its name: `.env` is stored as `.env.xlsx`. */
  lemma ExampleDotFile()
    ensures StoredName(".env") == ".env.xlsx"
  {
    assert StripTrailingSlashes(".env") == ".env";
    LastSegmentWhole(".env");
    LastDotAfter(".env", 0);
  }

  lemma ExampleKey()
    ensures RefreshKey("Engines.xlsx") == "engines"
  {
    OnlyLastExtensionRemoved("Engines", ".xlsx");
    assert "Engines" + ".xlsx" == "Engines.xlsx";
    assert Stem("Engines.xlsx") == "Engines";
    LowerEngines();
  }

  lemma LowerEngines()
    ensures Lower("Engines") == "engines"
  {
    var k := Lower("Engines");
    forall i | 0 <= i < 7 ensures k[i] == "engines"[i] {
      assert k[i] == AsciiLower("Engines"[i]);
    }
  }

  /** Appending the same text to two strings keeps them apart or together. */
  lemma WrapInjective(a: string, b: string)
    ensures "data/" + a + ".xlsx" == "data/" + b + ".xlsx" <==> a == b
  {
    if "data/" + a + ".xlsx" == "data/" + b + ".xlsx" {
      assert |a| == |b|;
      assert ("data/" + a + ".xlsx")[5..5 + |a|] == a;
      assert ("data/" + b + ".xlsx")[5..5 + |b|] == b;
    }
  }

  /** The backend reloads `data/<key>.xlsx`. An upload whose name gives one
      of the catalog keys is reloaded from the file it was stored as exactly
      when its stem is already lower case. */
  lemma RefreshReadsStoredFile(originalName: string)
    requires BackendCatalog.LookupFile(RefreshKey(originalName)).Some?
    ensures BackendCatalog.LookupFile(RefreshKey(originalName)).value.path == "data/" + StoredName(originalName)
            <==> Lower(Stem(originalName)) == Stem(originalName)
  {
    StoredPath(originalName);
    ReloadPathIffLower(Stem(originalName));
  }

  lemma StoredPath(originalName: string)
    ensures "data/" + StoredName(originalName) == "data/" + Stem(originalName) + ".xlsx"
  {
    WrapAssoc(Stem(originalName));
  }

  lemma WrapAssoc(s: string)
    ensures "data/" + (s + ".xlsx") == "data/" + s + ".xlsx"
  {
  }

  lemma ReloadPathIffLower(s: string)
    requires BackendCatalog.LookupFile(Lower(s)).Some?
    ensures BackendCatalog.LookupFile(Lower(s)).value.path == "data/" + s + ".xlsx" <==> Lower(s) == s
  {
    BackendCatalog.ExcelFilePath(Lower(s));
    WrapInjective(Lower(s), s);
  }
}
