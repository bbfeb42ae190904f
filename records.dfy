/** Result items as the catalog moves them around: an ordered list of named
    fields, in the order a spreadsheet row (pandas) or a JSON object (the
    browser) enumerates them. */
module Records {

  datatype Option<+T> = None | Some(value: T)

  /** A cell or property value: a string, or missing (NaN / None in the
      backend, null / undefined in the browser). Numeric cells are treated as
      the strings they print as. */
  datatype Value = Missing | Str(s: string)

  datatype Field = Field(key: string, value: Value)

  type Row = seq<Field>

  /** JavaScript (and Python) truthiness of a value: only a non-empty string
      is truthy; "" and a missing value are falsy. */
  predicate Truthy(v: Value)
  {
    v.Str? && v.s != ""
  }

  predicate HasKey(row: Row, key: string)
  {
    exists i :: 0 <= i < |row| && row[i].key == key
  }

  /** Field names are distinct, as in a JavaScript object or a DataFrame. */
  predicate UniqueKeys(row: Row)
  {
    forall i, j :: 0 <= i < j < |row| ==> row[i].key != row[j].key
  }

  /** `item.key` / `row[key]`: the value of the first field named `key`, or
      Missing when there is none. */
  function Get(row: Row, key: string): (v: Value)
    ensures !HasKey(row, key) ==> v == Missing
    ensures HasKey(row, key) ==>
      exists i :: 0 <= i < |row| && row[i].key == key && row[i].value == v &&
                  forall j :: 0 <= j < i ==> row[j].key != key
  {
    if row == [] then Missing
    else if row[0].key == key then row[0].value
    else
      var v := Get(row[1..], key);
      assert HasKey(row[1..], key) ==> HasKey(row, key) by {
        if HasKey(row[1..], key) {
          var i :| 0 <= i < |row[1..]| && row[1..][i].key == key;
          assert row[i + 1].key == key;
        }
      }
      assert HasKey(row, key) ==> HasKey(row[1..], key) by {
        if HasKey(row, key) {
          var i :| 0 <= i < |row| && row[i].key == key;
          assert i > 0 && row[1..][i - 1].key == key;
        }
      }
      if HasKey(row, key) then
        var i :| 0 <= i < |row[1..]| && row[1..][i].key == key && row[1..][i].value == v &&
                 forall j :: 0 <= j < i ==> row[1..][j].key != key;
        assert row[i + 1].key == key && row[i + 1].value == v;
        assert forall j :: 0 <= j < i + 1 ==> row[j].key != key by {
          forall j | 0 <= j < i + 1 ensures row[j].key != key {
            if j > 0 { assert row[j] == row[1..][j - 1]; }
          }
        }
        v
      else v
  }

  /** Every field named `key` gets value `v`; the other fields are untouched. */
  function Overwrite(row: Row, key: string, v: Value): (r: Row)
    ensures |r| == |row|
    ensures forall i :: 0 <= i < |row| ==>
      r[i] == (if row[i].key == key then Field(key, v) else row[i])
  {
    if row == [] then []
    else [if row[0].key == key then Field(key, v) else row[0]] + Overwrite(row[1..], key, v)
  }

  /** Assigning one field: `{...item, key: v}` in JavaScript, `df[key] = v`
      in pandas. An existing field keeps its position and takes the new value;
      a new field goes last. */
  function Set(row: Row, key: string, v: Value): (r: Row)
    ensures Get(r, key) == v
    ensures forall k :: k != key ==> Get(r, k) == Get(row, k)
    ensures HasKey(row, key) ==>
      |r| == |row| && forall i :: 0 <= i < |r| ==> r[i].key == row[i].key
    ensures !HasKey(row, key) ==> r == row + [Field(key, v)]
    ensures UniqueKeys(row) ==> UniqueKeys(r)
  {
    if HasKey(row, key) then
      var r := Overwrite(row, key, v);
      OverwriteGet(row, key, v);
      SameKeysUnique(row, r);
      r
    else
      var r := row + [Field(key, v)];
      AppendGet(row, key, v);
      AppendUnique(row, Field(key, v));
      r
  }

  lemma SameKeysUnique(a: Row, b: Row)
    requires |a| == |b| && forall i :: 0 <= i < |a| ==> a[i].key == b[i].key
    ensures UniqueKeys(a) ==> UniqueKeys(b)
  {
  }

  lemma AppendUnique(row: Row, f: Field)
    requires !HasKey(row, f.key)
    ensures UniqueKeys(row) ==> UniqueKeys(row + [f])
  {
    var r := row + [f];
    if UniqueKeys(row) {
      forall i, j | 0 <= i < j < |r| ensures r[i].key != r[j].key {
        assert r[i] == row[i];
        if j < |row| { assert r[j] == row[j]; } else { assert r[j] == f; }
      }
    }
  }

  lemma OverwriteGet(row: Row, key: string, v: Value)
    requires HasKey(row, key)
    ensures Get(Overwrite(row, key, v), key) == v
    ensures forall k :: k != key ==> Get(Overwrite(row, key, v), k) == Get(row, k)
  {
    var r := Overwrite(row, key, v);
    assert forall i :: 0 <= i < |row| ==> r[i].key == row[i].key;
    forall k | k != key ensures Get(r, k) == Get(row, k) {
      SameKeysSameGet(row, r, k);
    }
    var i0 :| 0 <= i0 < |row| && row[i0].key == key;
    assert r[i0].key == key;
    assert HasKey(r, key);
    var i :| 0 <= i < |r| && r[i].key == key && r[i].value == Get(r, key) &&
             forall j :: 0 <= j < i ==> r[j].key != key;
    assert r[i] == Field(key, v);
  }

  /** Writing back the value a field already holds changes nothing. */
  lemma OverwriteSameValue(item: Row, key: string)
    requires UniqueKeys(item) && HasKey(item, key)
    ensures Overwrite(item, key, Get(item, key)) == item
  {
    var v := Get(item, key);
    var i :| 0 <= i < |item| && item[i].key == key && item[i].value == v &&
             forall j :: 0 <= j < i ==> item[j].key != key;
    var r := Overwrite(item, key, v);
    forall j | 0 <= j < |item| ensures r[j] == item[j] {
      if item[j].key == key {
        assert j == i;
      }
    }
  }

  /** Two rows with the same field names and the same values in every field
      named `k` give the same `Get(_, k)`. */
  lemma {:induction false} SameKeysSameGet(a: Row, b: Row, k: string)
    requires |a| == |b|
    requires forall i :: 0 <= i < |a| ==> a[i].key == b[i].key
    requires forall i :: 0 <= i < |a| && a[i].key == k ==> a[i].value == b[i].value
    ensures Get(a, k) == Get(b, k)
  {
    if a != [] && a[0].key != k {
      assert forall i :: 0 <= i < |a[1..]| ==> a[1..][i] == a[i + 1] && b[1..][i] == b[i + 1];
      SameKeysSameGet(a[1..], b[1..], k);
    }
  }

  lemma AppendGet(row: Row, key: string, v: Value)
    requires !HasKey(row, key)
    ensures Get(row + [Field(key, v)], key) == v
    ensures forall k :: k != key ==> Get(row + [Field(key, v)], k) == Get(row, k)
  {
    var r := row + [Field(key, v)];
    assert r[|row|].key == key;
    forall k | k != key ensures Get(r, k) == Get(row, k) {
      if HasKey(r, k) {
        var i :| 0 <= i < |r| && r[i].key == k && r[i].value == Get(r, k) &&
                 forall j :: 0 <= j < i ==> r[j].key != k;
        assert i < |row| && row[i].key == k;
        var i' :| 0 <= i' < |row| && row[i'].key == k && row[i'].value == Get(row, k) &&
                  forall j :: 0 <= j < i' ==> row[j].key != k;
        assert r[i'] == row[i'];
        assert i == i';
      } else {
        assert !HasKey(row, k) by {
          forall i | 0 <= i < |row| ensures row[i].key != k {
            assert r[i] == row[i];
          }
        }
      }
    }
  }
}
