/** The category page title: the route's category name with dashes shown
    as spaces. */
module CategoryPage {
  /** `categoryName.replace(/-/g, ' ')`. */
  function CategoryTitle(name: string): (r: string)
    ensures |r| == |name|
    ensures forall i :: 0 <= i < |name| ==> r[i] == (if name[i] == '-' then ' ' else name[i])
  {
    seq(|name|, i requires 0 <= i < |name| => if name[i] == '-' then ' ' else name[i])
  }

  /** No dash is left in the title. */
  lemma TitleHasNoDash(name: string)
    ensures '-' !in CategoryTitle(name)
  {
    var r := CategoryTitle(name);
    forall i | 0 <= i < |r| ensures r[i] != '-' {
    }
  }

  /** A name without dashes is its own title. */
  lemma TitleKeepsDashFreeName(name: string)
    requires '-' !in name
    ensures CategoryTitle(name) == name
  {
    var r := CategoryTitle(name);
    forall i | 0 <= i < |name| ensures r[i] == name[i] {
      assert name[i] in name;
    }
  }

  /** Replacing dashes twice is replacing them once. */
  lemma TitleIdempotent(name: string)
    ensures CategoryTitle(CategoryTitle(name)) == CategoryTitle(name)
  {
    TitleHasNoDash(name);
    TitleKeepsDashFreeName(CategoryTitle(name));
  }

  lemma Example()
    ensures CategoryTitle("spark-plugs") == "spark plugs"
  {
  }
}
