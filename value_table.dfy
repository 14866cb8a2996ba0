/** The `Dictionary<DateTime, float>` that holds a sensor state's readings.
    .NET enumerates such a dictionary in insertion order when nothing is
    removed, and the modelled code depends on that order (ElementAt(0),
    foreach, positional indexing), so a table keeps its keys in insertion
    order beside the key-to-reading map. */
module ValueTable {
  import opened Common

  datatype Table = Table(order: seq<Timestamp>, entries: map<Timestamp, Reading>)

  predicate NoDuplicates(s: seq<Timestamp>)
  {
    forall i, j :: 0 <= i < j < |s| ==> s[i] != s[j]
  }

  /** Every key is listed exactly once in `order`, and only keys are listed. */
  predicate WellFormed(t: Table)
  {
    && NoDuplicates(t.order)
    && (forall i :: 0 <= i < |t.order| ==> t.order[i] in t.entries)
    && (forall k :: k in t.entries ==> k in t.order)
  }

  type Values = t: Table | WellFormed(t) witness Table([], map[])

  const Empty: Values := Table([], map[])

  function Count(t: Values): nat
  {
    |t.entries|
  }

  predicate ContainsKey(t: Values, k: Timestamp)
  {
    k in t.entries
  }

  /** `Dictionary.Add`: throws ArgumentException when the key is already present. */
  function Add(t: Values, k: Timestamp, v: Reading): (r: Result<Values>)
    ensures r.Err? <==> k in t.entries
    ensures r.Ok? ==> r.value.entries == t.entries[k := v] && r.value.order == t.order + [k]
  {
    if k in t.entries then Err(Argument)
    else
      var order := t.order + [k];
      assert forall i :: 0 <= i < |t.order| ==> t.order[i] != k;
      Ok(Table(order, t.entries[k := v]))
  }

  /** The indexer `d[k] = v`: overwrites a present key in place, appends a new one. */
  function Put(t: Values, k: Timestamp, v: Reading): (r: Values)
    ensures r.entries == t.entries[k := v]
    ensures r.order == if k in t.entries then t.order else t.order + [k]
  {
    if k in t.entries then Table(t.order, t.entries[k := v])
    else
      assert forall i :: 0 <= i < |t.order| ==> t.order[i] != k;
      Table(t.order + [k], t.entries[k := v])
  }

  lemma EmptyIffNoOrder(t: Values)
    ensures |t.entries| == 0 <==> |t.order| == 0
  {
    if |t.order| == 0 {
      assert forall k :: k !in t.entries;
      assert t.entries == map[];
    }
    if |t.order| != 0 {
      assert t.order[0] in t.entries;
      assert t.entries.Keys != {};
    }
  }

  /** A key of a table sits at exactly one position of its order. */
  lemma KeyPosition(t: Values, k: Timestamp) returns (i: nat)
    requires k in t.entries
    ensures i < |t.order| && t.order[i] == k
  {
    assert k in t.order;
    i :| 0 <= i < |t.order| && t.order[i] == k;
  }
}
