/**
 * Two small helpers of the core package: dropping the `None` entries of a dictionary
 * (core/util.py) and clearing a context info object (core/model.py).
 */
module CoreUtil {
  import opened Wrappers

  /** `filter_none_keys`: the entries whose value is present, with the value unwrapped. */
  function FilterNoneKeys<K(!new), V>(m: map<K, Option<V>>): (r: map<K, V>)
    ensures forall k :: k in r <==> k in m && m[k].Some?
    ensures forall k :: k in r ==> m[k] == Some(r[k])
  {
    map k | k in m && m[k].Some? :: m[k].value
  }

  /** A dictionary without `None` values, seen again as one whose values may be `None`. */
  function Lift<K(!new), V>(m: map<K, V>): (r: map<K, Option<V>>)
    ensures r.Keys == m.Keys
    ensures forall k :: k in r ==> r[k] == Some(m[k])
  {
    map k | k in m :: Some(m[k])
  }

  /** Filtering a filtered dictionary changes nothing. */
  lemma FilterIdempotent<K(!new), V>(m: map<K, Option<V>>)
    ensures FilterNoneKeys(Lift(FilterNoneKeys(m))) == FilterNoneKeys(m)
  {
  }

  /** A dictionary without `None` values passes through unchanged. */
  lemma FilterKeepsComplete<K(!new), V>(m: map<K, V>)
    ensures FilterNoneKeys(Lift(m)) == m
  {
  }

  /** Dropping entries only shrinks the key set, and an all-`None` dictionary becomes empty. */
  lemma FilterShrinks<K(!new), V>(m: map<K, Option<V>>)
    ensures FilterNoneKeys(m).Keys <= m.Keys
    ensures (forall k :: k in m ==> m[k].None?) <==> FilterNoneKeys(m) == map[]
  {
    if FilterNoneKeys(m) == map[] {
      forall k | k in m ensures m[k].None? {
        assert k !in FilterNoneKeys(m);
      }
    }
  }

  /**
   * `BaseInfo.clear`: an info object is the map from its declared fields to their values; every
   * field is set to `None` and the set of fields stays the same.
   */
  function Clear<V>(info: map<string, Option<V>>): (r: map<string, Option<V>>)
    ensures r.Keys == info.Keys
    ensures forall f :: f in r ==> r[f].None?
  {
    map f | f in info :: None
  }

  /** Clearing twice is clearing once, and a cleared object has nothing left to filter. */
  lemma ClearIdempotent<V>(info: map<string, Option<V>>)
    ensures Clear(Clear(info)) == Clear(info)
    ensures FilterNoneKeys(Clear(info)) == map[]
  {
    FilterShrinks(Clear(info));
  }
}
