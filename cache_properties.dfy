/**
 * How `decode_string` uses the rolling cache across a document: a cacheable
 * string is registered before anything else is asked, a later reference to
 * it decodes to what the string itself decoded to, and a reference the
 * cache cannot resolve ends the decoding of the whole array it is in.
 */
module CacheProperties {
  import opened Wrappers
  import opened Values
  import opened RollingCache
  import opened DecodeSpec
  import opened DecodeProperties

  /**
   * The cacheable test comes first: a string the cache calls cacheable is
   * registered and parsed as itself, even when the cache would also call it
   * a reference.
   */
  lemma CacheableBeforeReference(t: DecoderTable, rules: Rules, h: History, s: string, asMapKey: bool)
    requires PrefixSafe(t) && rules.cacheable(h, s, asMapKey) && rules.isCacheKey(h, s)
    ensures DecodeString(t, rules, h, s, asMapKey) == Decoded(Ok(ParseString(t, s)), h + [Registration(s, asMapKey)])
  {
  }

  /**
   * In an array that decodes, element `k` is the decoding of `xs[k]` from the
   * cache as the elements before it left it.
   */
  lemma {:induction false} ElementDecodedAt(t: DecoderTable, rules: Rules, h: History, xs: seq<Node>, k: nat, asMapKey: bool)
    requires PrefixSafe(t) && k < |xs|
    requires DecodeAll(t, rules, h, xs, asMapKey).value.Ok?
    ensures var p := DecodeAll(t, rules, h, xs[..k], asMapKey);
            var d := Decode(t, rules, p.history, xs[k], asMapKey);
            p.value.Ok? && d.value.Ok?
            && DecodeAll(t, rules, h, xs, asMapKey).value.value.items[k] == d.value.value
    decreases k
  {
    var d0 := Decode(t, rules, h, xs[0], asMapKey);
    var rest := DecodeAll(t, rules, d0.history, xs[1..], asMapKey);
    var all := [d0.value.value] + rest.value.value.items;
    assert DecodeAll(t, rules, h, xs, asMapKey).value.value.items == all;
    if k == 0 {
      assert xs[..0] == [];
    } else {
      ElementDecodedAt(t, rules, d0.history, xs[1..], k - 1, asMapKey);
      var p' := DecodeAll(t, rules, d0.history, xs[1..][..k - 1], asMapKey);
      assert xs[..k][0] == xs[0] && xs[..k][1..] == xs[1..][..k - 1] && xs[1..][k - 1] == xs[k];
      assert DecodeAll(t, rules, h, xs[..k], asMapKey).history == p'.history;
      assert all[k] == rest.value.value.items[k - 1];
    }
  }

  /**
   * A reference that the cache, as the elements before it left it, resolves
   * to the string of an earlier element that was registered there, decodes
   * to what that element decoded to, wherever the two stand in the array
   * (decoding the array is DecodeAll, by ArrayDecodesElementwise).
   */
  lemma ReferenceReplaysString(t: DecoderTable, rules: Rules, h: History, xs: seq<Node>, i: nat, j: nat, s: string, ref: string, asMapKey: bool)
    requires PrefixSafe(t) && i < j < |xs| && xs[i] == Str(s) && xs[j] == Str(ref)
    requires rules.cacheable(DecodeAll(t, rules, h, xs[..i], asMapKey).history, s, asMapKey)
    requires var hj := DecodeAll(t, rules, h, xs[..j], asMapKey).history;
      && !rules.cacheable(hj, ref, asMapKey) && rules.isCacheKey(hj, ref)
      && rules.resolve(hj, ref, asMapKey) == Some(s)
    ensures var r := DecodeAll(t, rules, h, xs, asMapKey);
            r.value.Ok? ==> r.value.value.items[j] == r.value.value.items[i] == ParseString(t, s)
  {
    if DecodeAll(t, rules, h, xs, asMapKey).value.Ok? {
      ElementDecodedAt(t, rules, h, xs, i, asMapKey);
      ElementDecodedAt(t, rules, h, xs, j, asMapKey);
    }
  }

  /** The smallest instance: a string, then a reference to it, both decode to the string's value. */
  lemma ReferenceRightAfterString(t: DecoderTable, rules: Rules, h: History, s: string, ref: string, asMapKey: bool)
    requires PrefixSafe(t) && rules.cacheable(h, s, asMapKey)
    requires var h1 := h + [Registration(s, asMapKey)];
      && !rules.cacheable(h1, ref, asMapKey) && rules.isCacheKey(h1, ref)
      && rules.resolve(h1, ref, asMapKey) == Some(s)
    ensures Decode(t, rules, h, Arr([Str(s), Str(ref)]), asMapKey)
         == Decoded(Ok(VArr([ParseString(t, s), ParseString(t, s)])), h + [Registration(s, asMapKey)])
  {
    var xs := [Str(s), Str(ref)];
    var h1 := h + [Registration(s, asMapKey)];
    ArrayDecodesElementwise(t, rules, h, xs, asMapKey);
    var v := ParseString(t, s);
    assert xs[0] == Str(s) && xs[1..] == [Str(ref)] && [Str(ref)][1..] == [];
    assert Decode(t, rules, h, Str(s), asMapKey) == Decoded(Ok(v), h1);
    assert Decode(t, rules, h1, Str(ref), asMapKey) == Decoded(Ok(v), h1);
    assert DecodeAll(t, rules, h1, [], asMapKey) == Decoded(Ok(VArr([])), h1);
    assert [v] + [] == [v] && [v] + [v] == [v, v];
    assert DecodeAll(t, rules, h1, xs[1..], asMapKey) == Decoded(Ok(VArr([v])), h1);
  }

  /**
   * The first element whose decoding raises ends the array: the result is
   * that error, with the cache as the elements before it and the failing
   * element left it.
   */
  lemma {:induction false} FirstErrorEndsArray(t: DecoderTable, rules: Rules, h: History, xs: seq<Node>, i: nat, asMapKey: bool)
    requires PrefixSafe(t) && i < |xs|
    requires var p := DecodeAll(t, rules, h, xs[..i], asMapKey);
      p.value.Ok? && Decode(t, rules, p.history, xs[i], asMapKey).value.Err?
    ensures DecodeAll(t, rules, h, xs, asMapKey)
         == Decode(t, rules, DecodeAll(t, rules, h, xs[..i], asMapKey).history, xs[i], asMapKey)
    decreases i
  {
    if i == 0 {
      assert xs[..0] == [];
    } else {
      var d := Decode(t, rules, h, xs[0], asMapKey);
      assert xs[..i][0] == xs[0] && xs[..i][1..] == xs[1..][..i - 1];
      FirstErrorEndsArray(t, rules, d.history, xs[1..], i - 1, asMapKey);
    }
  }

  /**
   * A reference the cache cannot resolve aborts the decoding of the whole
   * array that holds it, however many elements follow.
   */
  lemma CacheMissAbortsArray(t: DecoderTable, rules: Rules, h: History, xs: seq<Node>, i: nat, ref: string, asMapKey: bool)
    requires PrefixSafe(t) && i < |xs| && xs[i] == Str(ref)
    requires var p := DecodeAll(t, rules, h, xs[..i], asMapKey);
      && p.value.Ok?
      && !rules.cacheable(p.history, ref, asMapKey) && rules.isCacheKey(p.history, ref)
      && rules.resolve(p.history, ref, asMapKey).None?
    ensures Decode(t, rules, h, Arr(xs), asMapKey)
         == Decoded(Err(CacheMiss(ref)), DecodeAll(t, rules, h, xs[..i], asMapKey).history)
  {
    ArrayDecodesElementwise(t, rules, h, xs, asMapKey);
    FirstErrorEndsArray(t, rules, h, xs, i, asMapKey);
  }
}
