/**
 * `CalendarExporter._flatten_date`: a nested summary dictionary becomes one
 * level of columns, a key k nested under p becoming "p_k", and datetimes lose
 * their time zone.
 */
module ExportFlatten {
  import opened Text

  /** A leaf of the summary: a datetime (with or without tzinfo), a date, a string or a number. */
  datatype Scalar =
    | Moment(wall: real, aware: bool)
    | Day(ordinal: int)
    | Str(s: string)
    | Number(n: int)

  /** A dictionary value: a leaf or a nested dictionary, its items in insertion order. */
  datatype Value = Leaf(scalar: Scalar) | Nested(entries: seq<(string, Value)>)

  /** `_remove_timezone`: an aware datetime becomes the naive one with the same wall clock; anything else is unchanged. */
  function RemoveTimezone(x: Scalar): (r: Scalar)
    ensures !(r.Moment? && r.aware)
    ensures x.Moment? ==> r == Moment(x.wall, false)
    ensures !x.Moment? ==> r == x
  {
    if x.Moment? && x.aware then Moment(x.wall, false) else x
  }

  /** The columns produced by the first k items of the dictionary d under `prefix`. */
  function FlattenPrefix(d: Value, k: nat, prefix: string): map<string, Scalar>
    requires d.Nested? && k <= |d.entries|
    decreases d, k
  {
    if k == 0 then map[]
    else
      var (key, value) := d.entries[k - 1];
      assert d.entries[k - 1] in d.entries;
      FlattenPrefix(d, k - 1, prefix)
      + match value
        case Leaf(x) => map[prefix + key := RemoveTimezone(x)]
        case Nested(es) => FlattenPrefix(value, |es|, prefix + key + "_")
  }

  /** The flattening of the whole dictionary d under `prefix`. */
  function Flatten(d: Value, prefix: string): map<string, Scalar>
    requires d.Nested?
  {
    FlattenPrefix(d, |d.entries|, prefix)
  }

  /**
   * `_flatten_date(data, prefix)`: for each item in order, recurse into a nested
   * dictionary under f"{prefix}{key}_" and merge its columns with `update`, or
   * store the leaf, without its time zone, under f"{prefix}{key}".
   */
  method FlattenDate(data: Value, prefix: string) returns (flattened: map<string, Scalar>)
    requires data.Nested?
    ensures flattened == Flatten(data, prefix)
    decreases data
  {
    flattened := map[];
    for i := 0 to |data.entries|
      invariant flattened == FlattenPrefix(data, i, prefix)
    {
      var (key, value) := data.entries[i];
      assert data.entries[i] in data.entries;
      if value.Nested? {
        var nested := FlattenDate(value, prefix + key + "_");
        flattened := flattened + nested;
      } else {
        flattened := flattened[prefix + key := RemoveTimezone(value.scalar)];
      }
    }
  }

  lemma PrefixChain(p: string, q: string, k: string)
    requires StartsWith(k, p + q)
    ensures StartsWith(k, p)
  {
    assert k[..|p|] == (p + q)[..|p|];
  }

  /** Every column name begins with the prefix, and no column holds an aware datetime. */
  lemma {:induction false} FlattenColumns(d: Value, k: nat, prefix: string)
    requires d.Nested? && k <= |d.entries|
    ensures forall c :: c in FlattenPrefix(d, k, prefix) ==> StartsWith(c, prefix)
    ensures forall c :: c in FlattenPrefix(d, k, prefix) ==> !(FlattenPrefix(d, k, prefix)[c].Moment? && FlattenPrefix(d, k, prefix)[c].aware)
    decreases d, k
  {
    if k > 0 {
      var (key, value) := d.entries[k - 1];
      assert d.entries[k - 1] in d.entries;
      FlattenColumns(d, k - 1, prefix);
      if value.Nested? {
        FlattenColumns(value, |value.entries|, prefix + key + "_");
        forall c | c in FlattenPrefix(value, |value.entries|, prefix + key + "_")
          ensures StartsWith(c, prefix)
        {
          PrefixChain(prefix, key + "_", c);
        }
      }
    }
  }

  /** The last item's leaf is stored, without its time zone, under the prefix followed by its key. */
  lemma FlattenLeaf(d: Value, prefix: string, key: string, x: Scalar)
    requires d.Nested? && d.entries != [] && d.entries[|d.entries| - 1] == (key, Leaf(x))
    ensures prefix + key in Flatten(d, prefix) && Flatten(d, prefix)[prefix + key] == RemoveTimezone(x)
  {
  }

  /** Prefixes chain: a leaf under key2 inside the dictionary under key is stored under prefix + key + "_" + key2. */
  lemma FlattenNestedLeaf(d: Value, prefix: string, key: string, inner: Value, key2: string, x: Scalar)
    requires d.Nested? && d.entries != [] && d.entries[|d.entries| - 1] == (key, inner)
    requires inner.Nested? && inner.entries != [] && inner.entries[|inner.entries| - 1] == (key2, Leaf(x))
    ensures prefix + key + "_" + key2 in Flatten(d, prefix)
    ensures Flatten(d, prefix)[prefix + key + "_" + key2] == RemoveTimezone(x)
  {
    assert d.entries[|d.entries| - 1] in d.entries;
    assert Flatten(inner, prefix + key + "_")[prefix + key + "_" + key2] == RemoveTimezone(x);
  }

  /** A dictionary with no nested values keeps one column per key: exactly prefix + key for each key. */
  lemma {:induction false} FlattenFlat(d: Value, k: nat, prefix: string)
    requires d.Nested? && k <= |d.entries|
    requires forall i :: 0 <= i < |d.entries| ==> d.entries[i].1.Leaf?
    ensures forall c :: c in FlattenPrefix(d, k, prefix) <==> exists i :: 0 <= i < k && c == prefix + d.entries[i].0
  {
    if k > 0 {
      FlattenFlat(d, k - 1, prefix);
    }
  }
}
