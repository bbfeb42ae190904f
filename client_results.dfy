/** Result handling shared by the browser pages: requests and responses of the
    search endpoints, grouping results by sheet, and picking what a card shows. */
module ClientResults {
  import opened Records
  import Seqs

  /** The `page_size` every page sends. */
  const PageSize: int := 30

  /** One `GET <endpoint>?page=..&page_size=..[&q=..]`; `q` is Missing when
      the parameter is not sent. */
  datatype Request = Request(endpoint: string, q: Value, page: int, pageSize: int)

  /** `if (search) params.append('q', search)`: the parameter is sent only
      for a non-empty term. */
  function QueryParam(search: string): (q: Value)
    ensures q == Missing <==> search == ""
    ensures q.Str? ==> q.s == search
  {
    if search == "" then Missing else Str(search)
  }

  /** How one request resolves: an OK response whose JSON has `results` and
      `has_more`, a non-OK status, or a rejected fetch (network failure or a
      body that is not the expected JSON). */
  datatype Response = Ok(results: seq<Row>, hasMore: bool) | NotOk(status: int) | NetworkError

  /** The group an item is filed under: its truthy `sheet`, else `fallback`. */
  function GroupKey(item: Row, fallback: string): (g: string)
    ensures Truthy(Get(item, "sheet")) ==> g == Get(item, "sheet").s
    ensures !Truthy(Get(item, "sheet")) ==> g == fallback
    ensures fallback != "" ==> g != ""
  {
    var s := Get(item, "sheet");
    if Truthy(s) then s.s else fallback
  }

  /** The distinct group keys of `items`, in the order they first occur. */
  function GroupOrder(items: seq<Row>, fallback: string): seq<string>
  {
    if items == [] then []
    else
      var prev := GroupOrder(items[..|items| - 1], fallback);
      var g := GroupKey(items[|items| - 1], fallback);
      if g in prev then prev else prev + [g]
  }

  /** The items of group `g`, in their original relative order. */
  function InGroup(items: seq<Row>, fallback: string, g: string): seq<Row>
  {
    Seqs.Filter((item: Row) => GroupKey(item, fallback) == g, items)
  }

  predicate Distinct(s: seq<string>)
  {
    forall i, j :: 0 <= i < j < |s| ==> s[i] != s[j]
  }

  /** The number of items held by the groups named in `order`. */
  function SumSizes(order: seq<string>, groups: map<string, seq<Row>>): nat
  {
    if order == [] then 0
    else (if order[0] in groups then |groups[order[0]]| else 0) + SumSizes(order[1..], groups)
  }

  /** Some item of `items` is filed under `g`. */
  predicate KeyOccurs(items: seq<Row>, fallback: string, g: string)
  {
    exists j :: 0 <= j < |items| && GroupKey(items[j], fallback) == g
  }

  lemma {:induction false} GroupOrderDistinct(items: seq<Row>, fallback: string)
    ensures Distinct(GroupOrder(items, fallback))
  {
    if items != [] {
      GroupOrderDistinct(items[..|items| - 1], fallback);
    }
  }

  /** A group exists exactly when some item is filed under it. */
  lemma {:induction false} GroupOrderMembers(items: seq<Row>, fallback: string, g: string)
    ensures g in GroupOrder(items, fallback) <==> KeyOccurs(items, fallback, g)
  {
    if items != [] {
      var init := items[..|items| - 1];
      GroupOrderMembers(init, fallback, g);
      if KeyOccurs(init, fallback, g) {
        var j :| 0 <= j < |init| && GroupKey(init[j], fallback) == g;
        assert items[j] == init[j];
      }
      if KeyOccurs(items, fallback, g) {
        var j :| 0 <= j < |items| && GroupKey(items[j], fallback) == g;
        if j < |init| {
          assert items[j] == init[j];
        }
      }
    }
  }

  /** There are no groups exactly when there are no items. */
  lemma GroupOrderEmptyIff(items: seq<Row>, fallback: string)
    ensures GroupOrder(items, fallback) == [] <==> items == []
  {
    if items != [] {
      GroupOrderMembers(items, fallback, GroupKey(items[0], fallback));
    }
  }

  lemma InGroupSnoc(items: seq<Row>, item: Row, fallback: string, h: string)
    ensures InGroup(items + [item], fallback, h) ==
            InGroup(items, fallback, h) + (if GroupKey(item, fallback) == h then [item] else [])
  {
    Seqs.FilterAppend((it: Row) => GroupKey(it, fallback) == h, items, [item]);
  }

  lemma InGroupEmpty(items: seq<Row>, fallback: string, g: string)
    requires g !in GroupOrder(items, fallback)
    ensures InGroup(items, fallback, g) == []
  {
    GroupOrderMembers(items, fallback, g);
    Seqs.FilterNone((item: Row) => GroupKey(item, fallback) == g, items);
  }

  lemma {:induction false} SumSizesOutside(order: seq<string>, groups: map<string, seq<Row>>, g: string, x: seq<Row>)
    requires g !in order
    ensures SumSizes(order, groups[g := x]) == SumSizes(order, groups)
  {
    if order != [] {
      SumSizesOutside(order[1..], groups, g, x);
    }
  }

  lemma {:induction false} SumSizesAppend(order: seq<string>, groups: map<string, seq<Row>>, g: string)
    ensures SumSizes(order + [g], groups) == SumSizes(order, groups) + (if g in groups then |groups[g]| else 0)
  {
    if order == [] {
      assert [] + [g] == [g];
    } else {
      assert (order + [g])[1..] == order[1..] + [g];
      SumSizesAppend(order[1..], groups, g);
    }
  }

  lemma {:induction false} SumSizesInside(order: seq<string>, groups: map<string, seq<Row>>, g: string, x: seq<Row>)
    requires Distinct(order) && g in order && g in groups
    ensures SumSizes(order, groups[g := x]) + |groups[g]| == SumSizes(order, groups) + |x|
  {
    if order[0] == g {
      assert g !in order[1..];
      SumSizesOutside(order[1..], groups, g, x);
    } else {
      SumSizesInside(order[1..], groups, g, x);
    }
  }

  /** Every group holds exactly its items, and none is empty. */
  predicate GroupsHold(groups: map<string, seq<Row>>, items: seq<Row>, fallback: string)
  {
    forall g :: g in groups ==> groups[g] == InGroup(items, fallback, g) && groups[g] != []
  }

  /** `order` and `groups` are the grouping of `items`. */
  ghost predicate Grouped(order: seq<string>, groups: map<string, seq<Row>>, items: seq<Row>, fallback: string)
  {
    && order == GroupOrder(items, fallback)
    && Distinct(order)
    && (forall g :: g in groups <==> g in order)
    && GroupsHold(groups, items, fallback)
    && SumSizes(order, groups) == |items|
  }

  /** Filing one more item, whose group does not exist yet, opens it. */
  lemma GroupNew(order: seq<string>, groups: map<string, seq<Row>>, items: seq<Row>, item: Row, fallback: string)
    requires Grouped(order, groups, items, fallback)
    requires GroupKey(item, fallback) !in groups
    ensures Grouped(order + [GroupKey(item, fallback)], groups[GroupKey(item, fallback) := [item]], items + [item], fallback)
  {
    var g := GroupKey(item, fallback);
    var items' := items + [item];
    var order' := order + [g];
    var groups' := groups[g := [item]];
    assert g !in order;
    assert items'[..|items|] == items;
    assert order' == GroupOrder(items', fallback);
    assert Distinct(order') by {
      forall i, j | 0 <= i < j < |order'| ensures order'[i] != order'[j] {
        assert order'[i] == order[i];
        if j < |order| { assert order'[j] == order[j]; } else { assert order'[j] == g; }
      }
    }
    assert forall h :: h in groups' <==> h in order';
    InGroupEmpty(items, fallback, g);
    assert GroupsHold(groups', items', fallback) by {
      forall h | h in groups'
        ensures groups'[h] == InGroup(items', fallback, h) && groups'[h] != []
      {
        InGroupSnoc(items, item, fallback, h);
      }
    }
    SumSizesOutside(order, groups, g, [item]);
    SumSizesAppend(order, groups', g);
    assert SumSizes(order', groups') == |items'|;
  }

  /** Filing one more item into an existing group appends it there. */
  lemma GroupExisting(order: seq<string>, groups: map<string, seq<Row>>, items: seq<Row>, item: Row, fallback: string)
    requires Grouped(order, groups, items, fallback)
    requires GroupKey(item, fallback) in groups
    ensures var g := GroupKey(item, fallback);
            Grouped(order, groups[g := groups[g] + [item]], items + [item], fallback)
  {
    var g := GroupKey(item, fallback);
    var items' := items + [item];
    var groups' := groups[g := groups[g] + [item]];
    assert g in order;
    assert items'[..|items|] == items;
    assert order == GroupOrder(items', fallback);
    assert forall h :: h in groups' <==> h in order;
    assert GroupsHold(groups', items', fallback) by {
      forall h | h in groups'
        ensures groups'[h] == InGroup(items', fallback, h) && groups'[h] != []
      {
        InGroupSnoc(items, item, fallback, h);
      }
    }
    SumSizesInside(order, groups, g, groups[g] + [item]);
    assert SumSizes(order, groups') == |items'|;
  }

  /** The `reduce` that files every item under its group: `order` is the order
      in which groups were created, `groups` what each holds. */
  method GroupBySheet(items: seq<Row>, fallback: string) returns (order: seq<string>, groups: map<string, seq<Row>>)
    ensures order == GroupOrder(items, fallback) && Distinct(order)
    ensures forall g :: g in groups <==> g in order
    ensures forall g :: g in groups ==> groups[g] == InGroup(items, fallback, g) && groups[g] != []
    ensures SumSizes(order, groups) == |items|
  {
    order, groups := [], map[];
    var i := 0;
    while i < |items|
      invariant 0 <= i <= |items|
      invariant Grouped(order, groups, items[..i], fallback)
    {
      var item := items[i];
      var g := GroupKey(item, fallback);
      assert items[..i + 1] == items[..i] + [item];
      if g !in groups {
        GroupNew(order, groups, items[..i], item, fallback);
        groups := groups[g := [item]];
        order := order + [g];
      } else {
        GroupExisting(order, groups, items[..i], item, fallback);
        groups := groups[g := groups[g] + [item]];
      }
      i := i + 1;
    }
    assert items[..i] == items;
  }

  /** The position in `keys` of the first key whose value in `item` is
      truthy, if any. */
  function FirstTruthyIndex(item: Row, keys: seq<string>): (r: Option<nat>)
    ensures r.Some? ==> r.value < |keys| && Truthy(Get(item, keys[r.value]))
    ensures r.Some? ==> forall j :: 0 <= j < r.value ==> !Truthy(Get(item, keys[j]))
    ensures r.None? ==> forall j :: 0 <= j < |keys| ==> !Truthy(Get(item, keys[j]))
  {
    if keys == [] then None
    else if Truthy(Get(item, keys[0])) then Some(0)
    else
      match FirstTruthyIndex(item, keys[1..])
      case None =>
        assert forall j :: 0 < j < |keys| ==> keys[j] == keys[1..][j - 1];
        None
      case Some(i) =>
        assert forall j :: 0 < j <= i + 1 ==> keys[j] == keys[1..][j - 1];
        Some(i + 1)
  }

  /** `item.k1 || item.k2 || ... || fallback` over string-valued fields: the
      first key whose value is truthy, else the fallback. */
  function FirstTruthyField(item: Row, keys: seq<string>, fallback: string): (r: string)
    ensures (exists i :: 0 <= i < |keys| && Truthy(Get(item, keys[i])) && r == Get(item, keys[i]).s &&
                         forall j :: 0 <= j < i ==> !Truthy(Get(item, keys[j]))) ||
            ((forall i :: 0 <= i < |keys| ==> !Truthy(Get(item, keys[i]))) && r == fallback)
  {
    match FirstTruthyIndex(item, keys)
    case None => fallback
    case Some(i) => Get(item, keys[i]).s
  }

  /** The fields a card lists: every field except `sheet` and `source`, and
      when `skipFalsy` only those with a truthy value; in field order. */
  function ShownFields(item: Row, skipFalsy: bool): (r: Row)
    ensures |r| <= |item|
    ensures forall i :: 0 <= i < |r| ==>
      r[i] in item && r[i].key != "sheet" && r[i].key != "source" && (skipFalsy ==> Truthy(r[i].value))
    ensures forall i :: 0 <= i < |item| ==>
      (item[i].key != "sheet" && item[i].key != "source" && (skipFalsy ==> Truthy(item[i].value))) ==> item[i] in r
  {
    Seqs.Filter((f: Field) => f.key != "sheet" && f.key != "source" && (skipFalsy ==> Truthy(f.value)), item)
  }

  /** The shown fields of a record split in two are those of its first part
      followed by those of its second: field order is kept. */
  lemma ShownFieldsAppend(a: Row, b: Row, skipFalsy: bool)
    ensures ShownFields(a + b, skipFalsy) == ShownFields(a, skipFalsy) + ShownFields(b, skipFalsy)
  {
    Seqs.FilterAppend((f: Field) => f.key != "sheet" && f.key != "source" && (skipFalsy ==> Truthy(f.value)), a, b);
  }
}
