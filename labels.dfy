/**
 Label maps and the key/value enumerations the tool walks over.

 A Kubernetes or GCE label set is a map from key to value. The tool never
 looks a label up by key: it always iterates over a dict's `items()`. The
 model therefore takes an enumeration (a sequence of `Label` pairs) as its
 input, and `Dict` gives the map that such an enumeration describes.
 */
module Labels {

  type LabelMap = map<string, string>

  /** One (key, value) pair of a dict's `items()`. */
  datatype Label = Label(key: string, value: string)

  /** The set of keys that occur in an enumeration. */
  function Keys(items: seq<Label>): (keys: set<string>)
  {
    set i | 0 <= i < |items| :: items[i].key
  }

  /** No key occurs twice, as in the `items()` of a dict. */
  predicate DistinctKeys(items: seq<Label>)
  {
    forall i, j :: 0 <= i < j < |items| ==> items[i].key != items[j].key
  }

  /**
   The dict obtained by inserting the pairs of `items` one after the other
   into an empty dict; a later pair overwrites an earlier one with the same key.
   */
  function Dict(items: seq<Label>): (m: LabelMap)
    ensures m.Keys == Keys(items)
    decreases |items|
  {
    if items == [] then map[]
    else
      var init, last := items[..|items| - 1], items[|items| - 1];
      assert Keys(items) == Keys(init) + {last.key} by {
        forall k | k in Keys(items) ensures k in Keys(init) + {last.key} {
          var i :| 0 <= i < |items| && items[i].key == k;
          if i < |init| { assert init[i] == items[i]; }
        }
        forall k | k in Keys(init) ensures k in Keys(items) {
          var i :| 0 <= i < |init| && init[i].key == k;
          assert items[i] == init[i];
        }
      }
      Dict(init)[last.key := last.value]
  }

  /** Extending an enumeration by one pair inserts that pair into its dict. */
  lemma DictSnoc(items: seq<Label>, i: nat)
    requires i < |items|
    ensures Dict(items[..i + 1]) == Dict(items[..i])[items[i].key := items[i].value]
  {
    assert items[..i + 1][..i] == items[..i];
  }

  /** With distinct keys, the dict maps every key of the enumeration to its own value. */
  lemma {:induction false} DictOfDistinct(items: seq<Label>)
    requires DistinctKeys(items)
    ensures forall i :: 0 <= i < |items| ==> items[i].key in Dict(items) && Dict(items)[items[i].key] == items[i].value
  {
    if items != [] {
      var init := items[..|items| - 1];
      assert DistinctKeys(init) by {
        forall i, j | 0 <= i < j < |init| ensures init[i].key != init[j].key {
          assert init[i] == items[i] && init[j] == items[j];
        }
      }
      DictOfDistinct(init);
      forall i | 0 <= i < |items|
        ensures items[i].key in Dict(items) && Dict(items)[items[i].key] == items[i].value
      {
        if i < |init| {
          assert init[i] == items[i];
          assert items[i].key != items[|items| - 1].key;
        }
      }
    }
  }

  /** Appending a pair with a new key keeps the keys distinct and inserts the pair. */
  lemma AppendNewKey(items: seq<Label>, key: string, value: string)
    requires DistinctKeys(items) && key !in Keys(items)
    ensures DistinctKeys(items + [Label(key, value)])
    ensures Dict(items + [Label(key, value)]) == Dict(items)[key := value]
  {
  }

  /**
   Every label map is the dict of some enumeration without repeated keys,
   so reasoning about all enumerations covers all dicts.
   */
  lemma {:induction false} EveryMapHasItems(m: LabelMap)
    ensures exists items :: DistinctKeys(items) && Dict(items) == m
    decreases |m|
  {
    if m == map[] {
      assert DistinctKeys([]) && Dict([]) == m;
    } else {
      var k :| k in m;
      var rest := RemoveKey(m, k);
      EveryMapHasItems(rest);
      var items :| DistinctKeys(items) && Dict(items) == rest;
      AppendNewKey(items, k, m[k]);
      var more := items + [Label(k, m[k])];
      assert DistinctKeys(more) && Dict(more) == m;
    }
  }

  /** The map without `k`: smaller, and `k` put back gives the map again. */
  function RemoveKey(m: LabelMap, k: string): (rest: LabelMap)
    requires k in m
    ensures |rest| < |m| && k !in rest
    ensures rest[k := m[k]] == m
  {
    var rest := m - {k};
    assert rest.Keys == m.Keys - {k};
    rest
  }

  /**
   The label set sent to the instance: every instance label overlaid on the
   proposed (node-derived) labels, so the instance wins on a shared key.
   */
  function Merge(proposed: LabelMap, existing: LabelMap): (m: LabelMap)
    ensures m.Keys == proposed.Keys + existing.Keys
    ensures forall k :: k in existing ==> m[k] == existing[k]
    ensures forall k :: k in proposed && k !in existing ==> m[k] == proposed[k]
  {
    proposed + existing
  }

  /** One more instance label overwrites (or adds) that key in the merge. */
  lemma MergeInsert(proposed: LabelMap, existing: LabelMap, key: string, value: string)
    ensures Merge(proposed, existing[key := value]) == Merge(proposed, existing)[key := value]
  {
  }

  /** Merging the merged map against the same instance labels changes nothing. */
  lemma MergeIdempotent(proposed: LabelMap, existing: LabelMap)
    ensures Merge(Merge(proposed, existing), existing) == Merge(proposed, existing)
  {
  }

  /** Merging the same proposed labels against an already merged instance changes nothing. */
  lemma MergeAbsorbs(proposed: LabelMap, existing: LabelMap)
    ensures Merge(proposed, Merge(proposed, existing)) == Merge(proposed, existing)
  {
  }

  /** Against an instance without labels the proposed map is sent as it is. */
  lemma MergeWithNoInstanceLabels(proposed: LabelMap)
    ensures Merge(proposed, map[]) == proposed
  {
  }
}
