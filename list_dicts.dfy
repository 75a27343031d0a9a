/**
 * Python's `dict[str, list[str]]` as the backend uses it for `FUNCS_TO_TOOL_CALLS`
 * and `FUNCS_TO_LINEAGE_IDS`: keys kept in insertion order, and one operation,
 * "create the list if the key is absent, then append to it".
 */
module ListDicts {

  datatype ListDict = ListDict(keys: seq<string>, lists: map<string, seq<string>>) {

    /** The keys are listed once each, and exactly the keys of the map. */
    ghost predicate Valid() {
      (forall i, j :: 0 <= i < j < |keys| ==> keys[i] != keys[j])
      && (forall k :: k in lists <==> k in keys)
    }

    /** `d.get(k, [])`. */
    function Get(k: string): seq<string> {
      if k in lists then lists[k] else []
    }

    /** `if not k in d: d[k] = []` then `d[k].append(x)`. */
    function Append(k: string, x: string): (r: ListDict) {
      if k in lists then ListDict(keys, lists[k := lists[k] + [x]])
      else ListDict(keys + [k], lists[k := [x]])
    }
  }

  const Empty := ListDict([], map[])

  lemma {:induction false} EmptyValid()
    ensures Empty.Valid()
  {
  }

  /** Appending extends exactly the one list, keeps the others, and adds the key at the
      end of the iteration order when it is new. */
  lemma {:induction false} AppendSpec(d: ListDict, k: string, x: string)
    requires d.Valid()
    ensures var r := d.Append(k, x);
            && r.Valid()
            && r.Get(k) == d.Get(k) + [x]
            && (forall k' :: k' != k ==> r.Get(k') == d.Get(k'))
            && (forall k' :: k' in r.lists <==> k' in d.lists || k' == k)
            && r.keys == (if k in d.lists then d.keys else d.keys + [k])
  {
    var r := d.Append(k, x);
    if k !in d.lists {
      assert k !in d.keys;
      forall i, j | 0 <= i < j < |r.keys| ensures r.keys[i] != r.keys[j] {
        if j == |d.keys| {
          assert r.keys[i] == d.keys[i];
        } else {
          assert r.keys[i] == d.keys[i] && r.keys[j] == d.keys[j];
        }
      }
    }
  }
}
