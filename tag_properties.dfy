/**
 * What `find_encoded_hash_decoder` and `decode_hash` promise about one-entry
 * hashes: a recognised tag runs its decoder on the sole value, anything else
 * is a one-entry generic map whose key is decoded a second time; and what the
 * built-in tags and `register`ed decoders then produce.
 */
module TagProperties {
  import opened Wrappers
  import opened Transit
  import opened Values
  import opened RollingCache
  import opened DecodeSpec
  import opened ParseProperties
  import opened DecodeProperties

  /**
   * A one-entry hash: the key is decoded as a map key; if that raises, so
   * does the hash; if it names a table entry, that decoder runs on the raw
   * value with the caller's flag and the cache as the key left it; otherwise
   * the hash is the generic map of its one entry, decoded from that same
   * cache, so the key is decoded a second time.
   */
  lemma OneEntryHash(t: DecoderTable, rules: Rules, h: History, key: Node, payload: Node, asMapKey: bool)
    requires PrefixSafe(t)
    ensures var kd := Decode(t, rules, h, key, true);
            Decode(t, rules, h, Hsh([(key, payload)]), asMapKey)
            == if kd.value.Err? then Decoded(Err(kd.value.error), kd.history)
               else if TableLookup(t, kd.value.value).Some? then
                 CallDecoder(t, rules, kd.history, TableLookup(t, kd.value.value).value, payload, asMapKey)
               else Stored([], DecodePairs(t, rules, kd.history, [(key, payload)]))
  {
    var n := Hsh([(key, payload)]);
    var kd := Decode(t, rules, h, key, true);
    assert n.entries[0] == (key, payload);
    if kd.value.Err? {
      assert FindEncodedHashDecoder(t, rules, h, n) == Found(Err(kd.value.error), kd.history);
    } else if TableLookup(t, kd.value.value).Some? {
      assert FindEncodedHashDecoder(t, rules, h, n) == Found(Ok(TableLookup(t, kd.value.value)), kd.history);
    } else {
      assert FindEncodedHashDecoder(t, rules, h, n) == Found(Ok(None), kd.history);
      assert Decode(t, rules, h, n, asMapKey) == DecodeEntries(t, rules, kd.history, n, 0, []);
      EntriesAgree(t, rules, kd.history, n, 0, []);
      assert n.entries[0..] == [(key, payload)];
    }
  }

  /**
   * When the sole key of an unrecognised one-entry hash is a string the cache
   * calls cacheable both times, it is registered twice, the second time by
   * the generic-map path; a payload that is an atom adds nothing more.
   */
  lemma SoleKeyRegisteredTwice(t: DecoderTable, rules: Rules, h: History, s: string, a: Atom, asMapKey: bool)
    requires PrefixSafe(t) && TableLookup(t, ParseString(t, s)).None?
    requires rules.cacheable(h, s, true)
    requires rules.cacheable(h + [Registration(s, true)], s, true)
    ensures Decode(t, rules, h, Hsh([(Str(s), Lit(a))]), asMapKey)
         == Decoded(Ok(VMap([(ParseString(t, s), VLit(a))])),
                    h + [Registration(s, true), Registration(s, true)])
  {
    var h1 := h + [Registration(s, true)];
    OneEntryHash(t, rules, h, Str(s), Lit(a), asMapKey);
    var es := [(Str(s), Lit(a))];
    var h2 := h1 + [Registration(s, true)];
    assert Decode(t, rules, h1, Str(s), true) == Decoded(Ok(ParseString(t, s)), h2);
    assert Decode(t, rules, h2, Lit(a), false) == Decoded(Ok(VLit(a)), h2);
    assert es[0] == (Str(s), Lit(a));
    assert es[1..] == [] && DecodePairs(t, rules, h2, es[1..]) == PairsDecoded(Ok([]), h2);
    assert [(ParseString(t, s), VLit(a))] + [] == [(ParseString(t, s), VLit(a))];
    assert DecodePairs(t, rules, h1, es) == PairsDecoded(Ok([(ParseString(t, s), VLit(a))]), h2);
    assert StoreAll([], [(ParseString(t, s), VLit(a))]) == [(ParseString(t, s), VLit(a))];
    assert h1 + [Registration(s, true)] == h + [Registration(s, true), Registration(s, true)];
  }

  /** A tag written as a string is not a string directive unless TAG itself is bound: it parses to itself. */
  lemma TagStringIsLiteral(t: DecoderTable, name: string)
    requires PrefixSafe(t) && TAG !in t
    ensures ParseString(t, TAG + name) == VStr(TAG + name)
  {
    assert (TAG + name)[1] == '#' && Prefix2(TAG + name) == TAG;
  }

  /**
   * A tag `TAG + name` that the table binds and that is never a cache
   * reference is recognised: its decoder runs on the raw value, after the
   * key's own registration if the cache calls the key cacheable.
   */
  lemma TagDispatch(t: DecoderTable, rules: Rules, h: History, name: string, payload: Node, asMapKey: bool)
    requires PrefixSafe(t) && TAG !in t
    requires TAG + name in t && NeverCacheKey(rules, TAG + name)
    ensures Decode(t, rules, h, Hsh([(Str(TAG + name), payload)]), asMapKey)
         == CallDecoder(t, rules, DecodeString(t, rules, h, TAG + name, true).history, t[TAG + name], payload, asMapKey)
  {
    TagStringIsLiteral(t, name);
    assert !rules.isCacheKey(h, TAG + name);
    OneEntryHash(t, rules, h, Str(TAG + name), payload, asMapKey);
  }

  /**
   * A one-entry hash whose key is a tag the table does not bind is not an
   * error: it is the generic map of that one entry.
   */
  lemma UnknownTagFallback(t: DecoderTable, rules: Rules, h: History, name: string, payload: Node, asMapKey: bool)
    requires PrefixSafe(t) && TAG !in t
    requires TAG + name !in t && NeverCacheKey(rules, TAG + name)
    ensures var h1 := DecodeString(t, rules, h, TAG + name, true).history;
            Decode(t, rules, h, Hsh([(Str(TAG + name), payload)]), asMapKey)
            == Stored([], DecodePairs(t, rules, h1, [(Str(TAG + name), payload)]))
  {
    TagStringIsLiteral(t, name);
    assert !rules.isCacheKey(h, TAG + name);
    OneEntryHash(t, rules, h, Str(TAG + name), payload, asMapKey);
  }

  /** The built-in tags of the default table and their decoders. */
  lemma BuiltinTags()
    ensures TAG + "'" in StructuralTags() && StructuralTags()[TAG + "'"] == QuoteFn
    ensures TAG + "t" in StructuralTags() && StructuralTags()[TAG + "t"] == ScalarFn(Instant)
    ensures TAG + "set" in StructuralTags() && StructuralTags()[TAG + "set"] == SetFn
    ensures TAG + "list" in StructuralTags() && StructuralTags()[TAG + "list"] == ListFn
    ensures TAG + "ints" in StructuralTags() && StructuralTags()[TAG + "ints"] == TypedArrayFn("ints")
    ensures TAG + "longs" in StructuralTags() && StructuralTags()[TAG + "longs"] == TypedArrayFn("longs")
    ensures TAG + "floats" in StructuralTags() && StructuralTags()[TAG + "floats"] == TypedArrayFn("floats")
    ensures TAG + "doubles" in StructuralTags() && StructuralTags()[TAG + "doubles"] == TypedArrayFn("doubles")
    ensures TAG + "bools" in StructuralTags() && StructuralTags()[TAG + "bools"] == TypedArrayFn("bools")
  {
    assert TAG + "'" == "~#'" && TAG + "t" == "~#t" && TAG + "set" == "~#set" && TAG + "list" == "~#list";
    assert TAG + "ints" == "~#ints" && TAG + "longs" == "~#longs" && TAG + "floats" == "~#floats";
    assert TAG + "doubles" == "~#doubles" && TAG + "bools" == "~#bools";
  }

  /** The default table meets the conditions the lemmas below put on a table: TAG alone is not one of its keys. */
  lemma DefaultTagUnbound()
    ensures PrefixSafe(DefaultDecoders()) && TAG !in DefaultDecoders()
  {
    ScalarPrefixesByMarker(TAG);
    assert PrefixKind(TAG[1]).None?;
    StructuralTagsShape();
    assert TAG !in StructuralTags();
  }

  /** A tag of the default table selects the same decoder there. */
  lemma DefaultTagEntry(k: string)
    requires k in StructuralTags()
    ensures k in DefaultDecoders() && DefaultDecoders()[k] == StructuralTags()[k]
  {
    ScalarPrefixesShape();
    StructuralTagsShape();
  }

  /** `~#'`: the quoted value is decoded, nothing more. */
  lemma QuoteTagDecodes(t: DecoderTable, rules: Rules, h: History, payload: Node, asMapKey: bool)
    requires PrefixSafe(t) && TAG !in t && TAG + "'" in t && t[TAG + "'"] == QuoteFn
    requires NeverCacheKey(rules, TAG + "'")
    ensures Decode(t, rules, h, Hsh([(Str(TAG + "'"), payload)]), asMapKey)
         == Decode(t, rules, DecodeString(t, rules, h, TAG + "'", true).history, payload, asMapKey)
  {
    TagDispatch(t, rules, h, "'", payload, asMapKey);
  }

  /** `~#t`: the raw value, not decoded, goes to the instant parser. */
  lemma InstantTagDecodes(t: DecoderTable, rules: Rules, h: History, payload: Node, asMapKey: bool)
    requires PrefixSafe(t) && TAG !in t && TAG + "t" in t && t[TAG + "t"] == ScalarFn(Instant)
    requires NeverCacheKey(rules, TAG + "t")
    ensures Decode(t, rules, h, Hsh([(Str(TAG + "t"), payload)]), asMapKey)
         == Decoded(Ok(Scalar(Instant, payload)), DecodeString(t, rules, h, TAG + "t", true).history)
  {
    TagDispatch(t, rules, h, "t", payload, asMapKey);
  }

  /** `~#set`: `Set.new` of the decoded value. */
  lemma SetTagDecodes(t: DecoderTable, rules: Rules, h: History, payload: Node, asMapKey: bool)
    requires PrefixSafe(t) && TAG !in t && TAG + "set" in t && t[TAG + "set"] == SetFn
    requires NeverCacheKey(rules, TAG + "set")
    ensures var d := Decode(t, rules, DecodeString(t, rules, h, TAG + "set", true).history, payload, asMapKey);
            Decode(t, rules, h, Hsh([(Str(TAG + "set"), payload)]), asMapKey)
            == if d.value.Err? then d else Decoded(ToSet(d.value.value), d.history)
  {
    TagDispatch(t, rules, h, "set", payload, asMapKey);
  }

  /** `~#list`: `TransitList.new` of the decoded value. */
  lemma ListTagDecodes(t: DecoderTable, rules: Rules, h: History, payload: Node, asMapKey: bool)
    requires PrefixSafe(t) && TAG !in t && TAG + "list" in t && t[TAG + "list"] == ListFn
    requires NeverCacheKey(rules, TAG + "list")
    ensures var d := Decode(t, rules, DecodeString(t, rules, h, TAG + "list", true).history, payload, asMapKey);
            Decode(t, rules, h, Hsh([(Str(TAG + "list"), payload)]), asMapKey)
            == if d.value.Err? then d else Decoded(Ok(ListOf(d.value.value)), d.history)
  {
    TagDispatch(t, rules, h, "list", payload, asMapKey);
  }

  /** `~#ints`, `~#longs`, `~#floats`, `~#doubles`, `~#bools`: `TypedArray.new` of the decoded value with the tag's own kind. */
  lemma TypedArrayTagDecodes(t: DecoderTable, rules: Rules, h: History, name: string, payload: Node, asMapKey: bool)
    requires PrefixSafe(t) && TAG !in t && TAG + name in t && t[TAG + name] == TypedArrayFn(name)
    requires NeverCacheKey(rules, TAG + name)
    ensures var d := Decode(t, rules, DecodeString(t, rules, h, TAG + name, true).history, payload, asMapKey);
            Decode(t, rules, h, Hsh([(Str(TAG + name), payload)]), asMapKey)
            == if d.value.Err? then d else Decoded(Ok(TypedArray(name, d.value.value)), d.history)
  {
    TagDispatch(t, rules, h, name, payload, asMapKey);
  }

  /**
   * `register(k)` with a block: a string beginning with the two characters
   * `k`, not an escaped literal, goes to the block with the characters from
   * index 2 on.
   */
  lemma RegisteredPrefix(t: DecoderTable, k: string, f: Node -> Value, rest: string)
    requires PrefixSafe(t) && |k| == 2 && !IsEscaped(k + rest)
    ensures PrefixSafe(t[k := BlockFn(f)])
    ensures ParseString(t[k := BlockFn(f)], k + rest) == f(Str(rest))
  {
    assert Prefix2(k + rest) == k && (k + rest)[2..] == rest;
  }

  /**
   * `register(TAG + name)` with a block: a one-entry hash with that tag hands
   * its raw value to the block, with the cache as the key's decoding left it.
   */
  lemma RegisteredTag(t: DecoderTable, rules: Rules, h: History, name: string, f: Node -> Value, payload: Node, asMapKey: bool)
    requires PrefixSafe(t) && TAG !in t && |name| >= 1
    requires NeverCacheKey(rules, TAG + name)
    ensures var t' := t[TAG + name := BlockFn(f)];
            PrefixSafe(t')
            && Decode(t', rules, h, Hsh([(Str(TAG + name), payload)]), asMapKey)
               == Decoded(Ok(f(payload)), DecodeString(t', rules, h, TAG + name, true).history)
  {
    var t' := t[TAG + name := BlockFn(f)];
    assert |TAG + name| > 2;
    TagDispatch(t', rules, h, name, payload, asMapKey);
  }
}
