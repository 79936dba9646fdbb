/**
 * `Transit::Decoder` of lib/transit/decoder.rb: an object owning the decoder
 * table, whose decoding methods thread one mutable rolling cache through
 * every recursive call.  Each method is proved to return, and to leave the
 * cache's history, exactly as the function of the same name in DecodeSpec.
 */
module TransitDecoder {
  import opened Wrappers
  import opened Values
  import opened RollingCache
  import opened DecodeSpec

  /** `DECODER_ARITY_MESSAGE`, the heredoc with its two lines. */
  const DecoderArityMessage: string := "Decoder functions require arity 1\n- the string to decode\n"

  /** The `ArgumentError` raised by `register`. */
  datatype ArgumentError = ArgumentError(message: string)

  class Decoder {
    /** `@decoders`. */
    var decoders: DecoderTable

    ghost predicate Valid()
      reads this
    {
      PrefixSafe(decoders)
    }

    /**
     * `initialize(options)`: the default table, or the table given as
     * `options[:decoders]`, which replaces it whole.  The new decoder is
     * valid, since InitialDecoders gives a prefix-safe table.
     */
    constructor (custom: Option<DecoderTable>)
      requires custom.Some? ==> PrefixSafe(custom.value)
      ensures decoders == InitialDecoders(custom)
    {
      decoders := InitialDecoders(custom);
    }

    /**
     * `register(k, &b)`: a block of arity 1 becomes the decoder of `k`,
     * replacing any earlier one; any other arity raises and changes nothing.
     */
    method Register(k: string, arity: int, block: Node -> Value) returns (r: Result<(), ArgumentError>)
      requires Valid()
      modifies this
      ensures Valid()
      ensures arity == 1 ==> r.Ok? && decoders == old(decoders)[k := BlockFn(block)]
      ensures arity != 1 ==> r == Err(ArgumentError(DecoderArityMessage)) && decoders == old(decoders)
    {
      if arity != 1 {
        return Err(ArgumentError(DecoderArityMessage));
      }
      decoders := decoders[k := BlockFn(block)];
      r := Ok(());
    }

    /** `decode(node, cache, as_map_key)`. */
    method Decode(node: Node, cache: Cache, asMapKey: bool) returns (r: Result<Value, DecodeError>)
      requires Valid()
      modifies cache
      ensures Decoded(r, cache.history) == DecodeSpec.Decode(decoders, cache.rules, old(cache.history), node, asMapKey)
      decreases node, 3
    {
      match node
      case Str(s) =>
        r := DecodeString(s, cache, asMapKey);
      case Hsh(_) =>
        r := DecodeHash(node, cache, asMapKey);
      case Arr(items) =>
        var out: seq<Value> := [];
        var i := 0;
        while i < |items|
          invariant 0 <= i <= |items|
          invariant DecodeSpec.Decode(decoders, cache.rules, old(cache.history), node, asMapKey)
                 == DecodeItems(decoders, cache.rules, cache.history, node, i, out, asMapKey)
          decreases |items| - i
        {
          var v := Decode(items[i], cache, asMapKey);
          if v.Err? {
            return v;
          }
          out := out + [v.value];
          i := i + 1;
        }
        r := Ok(VArr(out));
      case Lit(a) =>
        r := Ok(VLit(a));
    }

    /** `decode_string`: consult the cache, then `parse_string`. */
    method DecodeString(s: string, cache: Cache, asMapKey: bool) returns (r: Result<Value, DecodeError>)
      requires Valid()
      modifies cache
      ensures Decoded(r, cache.history) == DecodeSpec.DecodeString(decoders, cache.rules, old(cache.history), s, asMapKey)
    {
      if cache.IsCacheable(s, asMapKey) {
        cache.Encode(s, asMapKey);
        r := Ok(ParseString(decoders, s));
      } else if cache.IsCacheKey(s) {
        var original := cache.Decode(s, asMapKey);
        if original.None? {
          r := Err(CacheMiss(s));
        } else {
          r := Ok(ParseString(decoders, original.value));
        }
      } else {
        r := Ok(ParseString(decoders, s));
      }
    }

    /** `find_encoded_hash_decoder(hash, cache)`. */
    method FindEncodedHashDecoder(hash: Node, cache: Cache) returns (r: Result<Option<DecoderFn>, DecodeError>)
      requires Valid() && hash.Hsh?
      modifies cache
      ensures Found(r, cache.history) == DecodeSpec.FindEncodedHashDecoder(decoders, cache.rules, old(cache.history), hash)
      decreases hash, 1
    {
      if |hash.entries| != 1 {
        return Ok(None);
      }
      var key := Decode(hash.entries[0].0, cache, true);
      if key.Err? {
        return Err(key.error);
      }
      r := Ok(TableLookup(decoders, key.value));
    }

    /** `decode_hash(hash, cache, as_map_key)`: a tag's decoder, or the generic map built by `reduce`. */
    method DecodeHash(hash: Node, cache: Cache, asMapKey: bool) returns (r: Result<Value, DecodeError>)
      requires Valid() && hash.Hsh?
      modifies cache
      ensures Decoded(r, cache.history) == DecodeSpec.DecodeHash(decoders, cache.rules, old(cache.history), hash, asMapKey)
      decreases hash, 2
    {
      var decoder := FindEncodedHashDecoder(hash, cache);
      if decoder.Err? {
        return Err(decoder.error);
      }
      if decoder.value.Some? {
        r := CallDecoder(decoder.value.value, hash.entries[0].1, cache, asMapKey);
        return;
      }
      ghost var start := cache.history;
      var h: Pairs := [];
      var i := 0;
      while i < |hash.entries|
        invariant 0 <= i <= |hash.entries|
        invariant DecodeEntries(decoders, cache.rules, start, hash, 0, [])
               == DecodeEntries(decoders, cache.rules, cache.history, hash, i, h)
        decreases |hash.entries| - i
      {
        var k := Decode(hash.entries[i].0, cache, true);
        if k.Err? {
          return k;
        }
        var v := Decode(hash.entries[i].1, cache, false);
        if v.Err? {
          return v;
        }
        h := Store(h, k.value, v.value);
        i := i + 1;
      }
      r := Ok(VMap(h));
    }

    /** `decoder.call(payload, cache, as_map_key)`. */
    method CallDecoder(fn: DecoderFn, payload: Node, cache: Cache, asMapKey: bool) returns (r: Result<Value, DecodeError>)
      requires Valid()
      modifies cache
      ensures Decoded(r, cache.history) == DecodeSpec.CallDecoder(decoders, cache.rules, old(cache.history), fn, payload, asMapKey)
      decreases payload, 5
    {
      match fn
      case QuoteFn =>
        r := Decode(payload, cache, asMapKey);
      case SetFn =>
        r := DecodeSet(payload, cache, asMapKey);
      case ListFn =>
        r := DecodeList(payload, cache, asMapKey);
      case TypedArrayFn(kind) =>
        r := DecodeTypedArray(kind, payload, cache, asMapKey);
      case ScalarFn(_) =>
        r := Ok(ApplyScalar(fn, payload));
      case BlockFn(_) =>
        r := Ok(ApplyScalar(fn, payload));
    }

    /** `decode_set(m, cache, as_map_key)`. */
    method DecodeSet(m: Node, cache: Cache, asMapKey: bool) returns (r: Result<Value, DecodeError>)
      requires Valid()
      modifies cache
      ensures Decoded(r, cache.history) == DecodeSpec.DecodeSet(decoders, cache.rules, old(cache.history), m, asMapKey)
      decreases m, 4
    {
      r := Decode(m, cache, asMapKey);
      if r.Ok? {
        r := ToSet(r.value);
      }
    }

    /** `decode_list(m, cache, as_map_key)`. */
    method DecodeList(m: Node, cache: Cache, asMapKey: bool) returns (r: Result<Value, DecodeError>)
      requires Valid()
      modifies cache
      ensures Decoded(r, cache.history) == DecodeSpec.DecodeList(decoders, cache.rules, old(cache.history), m, asMapKey)
      decreases m, 4
    {
      r := Decode(m, cache, asMapKey);
      if r.Ok? {
        r := Ok(ListOf(r.value));
      }
    }

    /** `decode_typed_array(type, m, cache, as_map_key)`. */
    method DecodeTypedArray(kind: string, m: Node, cache: Cache, asMapKey: bool) returns (r: Result<Value, DecodeError>)
      requires Valid()
      modifies cache
      ensures Decoded(r, cache.history) == DecodeSpec.DecodeTypedArray(decoders, cache.rules, old(cache.history), kind, m, asMapKey)
      decreases m, 4
    {
      r := Decode(m, cache, asMapKey);
      if r.Ok? {
        r := Ok(TypedArray(kind, r.value));
      }
    }
  }
}
