/**
 * The rolling cache as the decoder sees it.  Its implementation is not part
 * of this model: which strings are worth caching, which strings are cache
 * references and what a reference stands for are kept abstract as the three
 * functions of `Rules`, each a function of the history of registrations
 * (the `encode` calls made so far on this document's cache).
 */
module RollingCache {
  import opened Wrappers

  /** One `cache.encode(string, as_map_key)` call. */
  datatype Registration = Registration(s: string, asMapKey: bool)

  type History = seq<Registration>

  /** `cacheable?`, `cache_key?` and `decode` of one cache implementation. */
  datatype Rules = Rules(
    cacheable: (History, string, bool) -> bool,
    isCacheKey: (History, string) -> bool,
    resolve: (History, string, bool) -> Option<string>)

  /**
   * `after` is `before` followed by registrations only, each of a string
   * that the cache called cacheable at the moment it was registered.
   */
  ghost predicate AppendsCacheable(rules: Rules, before: History, after: History) {
    && |before| <= |after|
    && after[..|before|] == before
    && forall i :: |before| <= i < |after| ==> rules.cacheable(after[..i], after[i].s, after[i].asMapKey)
  }

  lemma AppendsCacheableTrans(rules: Rules, h0: History, h1: History, h2: History)
    requires AppendsCacheable(rules, h0, h1) && AppendsCacheable(rules, h1, h2)
    ensures AppendsCacheable(rules, h0, h2)
  {
    forall i | |h0| <= i < |h1|
      ensures h2[..i] == h1[..i] && h2[i] == h1[i]
    {
      assert h2[..|h1|][..i] == h2[..i];
    }
    assert h2[..|h1|][..|h0|] == h2[..|h0|];
  }

  /** One registration of a cacheable string. */
  lemma AppendsOne(rules: Rules, h: History, s: string, asMapKey: bool)
    requires rules.cacheable(h, s, asMapKey)
    ensures AppendsCacheable(rules, h, h + [Registration(s, asMapKey)])
  {
    assert (h + [Registration(s, asMapKey)])[..|h|] == h;
  }

  /** The per-document cache object that the decoder threads through every call. */
  class Cache {
    const rules: Rules
    var history: History

    constructor (rules: Rules)
      ensures this.rules == rules && history == []
    {
      this.rules := rules;
      history := [];
    }

    predicate IsCacheable(s: string, asMapKey: bool)
      reads this
    {
      rules.cacheable(history, s, asMapKey)
    }

    predicate IsCacheKey(s: string)
      reads this
    {
      rules.isCacheKey(history, s)
    }

    /** `cache.decode`: the string a reference stands for, if the cache has one. */
    function Decode(s: string, asMapKey: bool): Option<string>
      reads this
    {
      rules.resolve(history, s, asMapKey)
    }

    /** `cache.encode`: records the registration; nothing else changes. */
    method Encode(s: string, asMapKey: bool)
      modifies this
      ensures history == old(history) + [Registration(s, asMapKey)]
    {
      history := history + [Registration(s, asMapKey)];
    }
  }
}
