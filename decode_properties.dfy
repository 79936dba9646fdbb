/**
 * What `decode` promises about arrays, generic maps, atoms and data that
 * holds no directive, each proved against a definition written
 * independently of the decoder's own recursion.
 */
module DecodeProperties {
  import opened Wrappers
  import opened Transit
  import opened Values
  import opened RollingCache
  import opened DecodeSpec
  import opened ParseProperties

  /**
   * Reference reading of `node.map {|n| decode(n, cache, as_map_key)}`:
   * the elements one after another, each with the same flag, the cache as
   * the previous one left it; the first error ends the whole array.
   */
  function DecodeAll(t: DecoderTable, rules: Rules, h: History, xs: seq<Node>, asMapKey: bool): (r: Decoded)
    requires PrefixSafe(t)
    ensures r.value.Ok? ==> r.value.value.VArr? && |r.value.value.items| == |xs|
    decreases xs
  {
    if xs == [] then Decoded(Ok(VArr([])), h)
    else
      var d := Decode(t, rules, h, xs[0], asMapKey);
      if d.value.Err? then d
      else
        var rest := DecodeAll(t, rules, d.history, xs[1..], asMapKey);
        if rest.value.Err? then rest
        else Decoded(Ok(VArr([d.value.value] + rest.value.value.items)), rest.history)
  }

  /** A decoded array with `acc` put in front of its elements. */
  function Prefixed(acc: seq<Value>, d: Decoded): Decoded {
    if d.value.Ok? && d.value.value.VArr? then Decoded(Ok(VArr(acc + d.value.value.items)), d.history) else d
  }

  lemma {:induction false} ItemsAgree(t: DecoderTable, rules: Rules, h: History, n: Node, i: nat, acc: seq<Value>, asMapKey: bool)
    requires PrefixSafe(t) && n.Arr? && i <= |n.items|
    ensures DecodeItems(t, rules, h, n, i, acc, asMapKey) == Prefixed(acc, DecodeAll(t, rules, h, n.items[i..], asMapKey))
    decreases |n.items| - i
  {
    if i == |n.items| {
      assert n.items[i..] == [];
      assert acc + [] == acc;
    } else {
      var d := Decode(t, rules, h, n.items[i], asMapKey);
      if d.value.Ok? {
        ItemsAgree(t, rules, d.history, n, i + 1, acc + [d.value.value], asMapKey);
      }
      ItemsAgreeStep(t, rules, h, n, i, acc, asMapKey);
    }
  }

  /** One element of ItemsAgree, given the claim for the elements after it. */
  lemma ItemsAgreeStep(t: DecoderTable, rules: Rules, h: History, n: Node, i: nat, acc: seq<Value>, asMapKey: bool)
    requires PrefixSafe(t) && n.Arr? && i < |n.items|
    requires var d := Decode(t, rules, h, n.items[i], asMapKey);
      d.value.Ok? ==>
        DecodeItems(t, rules, d.history, n, i + 1, acc + [d.value.value], asMapKey)
        == Prefixed(acc + [d.value.value], DecodeAll(t, rules, d.history, n.items[i + 1..], asMapKey))
    ensures DecodeItems(t, rules, h, n, i, acc, asMapKey) == Prefixed(acc, DecodeAll(t, rules, h, n.items[i..], asMapKey))
  {
    var xs := n.items[i..];
    assert xs[0] == n.items[i] && xs[1..] == n.items[i + 1..];
    var d := Decode(t, rules, h, n.items[i], asMapKey);
    if d.value.Ok? {
      var v := d.value.value;
      var rest := DecodeAll(t, rules, d.history, n.items[i + 1..], asMapKey);
      if rest.value.Ok? {
        Regroup(acc, v, rest.value.value.items);
      }
    }
  }

  lemma Regroup<T>(acc: seq<T>, x: T, xs: seq<T>)
    ensures acc + [x] + xs == acc + ([x] + xs)
  {
  }

  /**
   * Decoding an array is decoding its elements in order with the
   * unchanged flag: same length, element by element, nothing else.
   */
  lemma ArrayDecodesElementwise(t: DecoderTable, rules: Rules, h: History, xs: seq<Node>, asMapKey: bool)
    requires PrefixSafe(t)
    ensures Decode(t, rules, h, Arr(xs), asMapKey) == DecodeAll(t, rules, h, xs, asMapKey)
  {
    ItemsAgree(t, rules, h, Arr(xs), 0, [], asMapKey);
    assert xs[0..] == xs;
    var d := DecodeAll(t, rules, h, xs, asMapKey);
    if d.value.Ok? {
      assert [] + d.value.value.items == d.value.value.items;
    }
  }

  /** The decoded key and value pairs of a generic map, before they are stored. */
  datatype PairsDecoded = PairsDecoded(pairs: Result<Pairs, DecodeError>, history: History)

  /**
   * Reference reading of the generic-map `reduce`: for each entry in
   * iteration order, the key decoded as a map key, then the value decoded
   * as a non-key; the first error ends the whole hash.
   */
  function DecodePairs(t: DecoderTable, rules: Rules, h: History, es: seq<(Node, Node)>): (r: PairsDecoded)
    requires PrefixSafe(t)
    ensures r.pairs.Ok? ==> |r.pairs.value| == |es|
    decreases es
  {
    if es == [] then PairsDecoded(Ok([]), h)
    else
      var k := Decode(t, rules, h, es[0].0, true);
      if k.value.Err? then PairsDecoded(Err(k.value.error), k.history)
      else
        var v := Decode(t, rules, k.history, es[0].1, false);
        if v.value.Err? then PairsDecoded(Err(v.value.error), v.history)
        else
          var rest := DecodePairs(t, rules, v.history, es[1..]);
          match rest.pairs
          case Err(_) => rest
          case Ok(ps) => PairsDecoded(Ok([(k.value.value, v.value.value)] + ps), rest.history)
  }

  /** The decoded pairs stored, in order, into `acc`. */
  function Stored(acc: Pairs, p: PairsDecoded): Decoded {
    match p.pairs
    case Ok(ps) => Decoded(Ok(VMap(StoreAll(acc, ps))), p.history)
    case Err(e) => Decoded(Err(e), p.history)
  }

  lemma {:induction false} EntriesAgree(t: DecoderTable, rules: Rules, h: History, n: Node, i: nat, acc: Pairs)
    requires PrefixSafe(t) && n.Hsh? && i <= |n.entries|
    ensures DecodeEntries(t, rules, h, n, i, acc) == Stored(acc, DecodePairs(t, rules, h, n.entries[i..]))
    decreases |n.entries| - i
  {
    var es := n.entries[i..];
    if i < |n.entries| {
      assert es[0] == n.entries[i] && es[1..] == n.entries[i + 1..];
      var k := Decode(t, rules, h, n.entries[i].0, true);
      if k.value.Ok? {
        var v := Decode(t, rules, k.history, n.entries[i].1, false);
        if v.value.Ok? {
          var acc' := Store(acc, k.value.value, v.value.value);
          EntriesAgree(t, rules, v.history, n, i + 1, acc');
          var rest := DecodePairs(t, rules, v.history, es[1..]);
          if rest.pairs.Ok? {
            var kvs := [(k.value.value, v.value.value)] + rest.pairs.value;
            assert kvs[0] == (k.value.value, v.value.value) && kvs[1..] == rest.pairs.value;
            assert StoreAll(acc, kvs) == StoreAll(acc', rest.pairs.value);
          }
        }
      }
    }
  }

  /**
   * A hash that is not a one-entry hash is never a tag: it is rebuilt as a
   * generic map from its keys decoded as map keys and its values decoded
   * as non-keys, stored in iteration order.
   */
  lemma GenericMapDecode(t: DecoderTable, rules: Rules, h: History, es: seq<(Node, Node)>, asMapKey: bool)
    requires PrefixSafe(t) && |es| != 1
    ensures Decode(t, rules, h, Hsh(es), asMapKey) == Stored([], DecodePairs(t, rules, h, es))
  {
    EntriesAgree(t, rules, h, Hsh(es), 0, []);
    assert es[0..] == es;
  }

  /**
   * In the generic map every decoded key occurs once and holds the decoded
   * value of the last entry whose key decoded to it.
   */
  lemma GenericMapLastWins(t: DecoderTable, rules: Rules, h: History, es: seq<(Node, Node)>, asMapKey: bool, k: Value)
    requires PrefixSafe(t) && |es| != 1
    requires DecodePairs(t, rules, h, es).pairs.Ok?
    ensures Decode(t, rules, h, Hsh(es), asMapKey).value.Ok?
    ensures Decode(t, rules, h, Hsh(es), asMapKey).value.value.VMap?
    ensures Distinct(Keys(Decode(t, rules, h, Hsh(es), asMapKey).value.value.entries))
    ensures Lookup(Decode(t, rules, h, Hsh(es), asMapKey).value.value.entries, k)
         == LastValue(DecodePairs(t, rules, h, es).pairs.value, k)
  {
    GenericMapDecode(t, rules, h, es, asMapKey);
    var ps := DecodePairs(t, rules, h, es).pairs.value;
    StoreAllLookup([], ps, k);
    StoreAllKeepsDistinct([], ps);
  }

  /**
   * The shape of a successful decode: an array stays an array of the same
   * length, and a hash that is not a one-entry hash becomes a map in which
   * no key occurs twice.
   */
  lemma DecodeShape(t: DecoderTable, rules: Rules, h: History, n: Node, asMapKey: bool)
    requires PrefixSafe(t)
    ensures var r := Decode(t, rules, h, n, asMapKey);
            n.Arr? && r.value.Ok? ==> r.value.value.VArr? && |r.value.value.items| == |n.items|
    ensures var r := Decode(t, rules, h, n, asMapKey);
            n.Hsh? && |n.entries| != 1 && r.value.Ok? ==> r.value.value.VMap? && Distinct(Keys(r.value.value.entries))
  {
    match n
    case Arr(xs) =>
      ArrayDecodesElementwise(t, rules, h, xs, asMapKey);
    case Hsh(es) =>
      if |es| != 1 {
        GenericMapDecode(t, rules, h, es, asMapKey);
        var p := DecodePairs(t, rules, h, es);
        if p.pairs.Ok? {
          StoreAllKeepsDistinct([], p.pairs.value);
        }
      }
    case _ =>
  }

  /** Numbers, booleans and null come back unchanged, and the cache is not touched. */
  lemma AtomsUnchanged(t: DecoderTable, rules: Rules, h: History, a: Atom, asMapKey: bool)
    requires PrefixSafe(t)
    ensures Decode(t, rules, h, Lit(a), asMapKey) == Decoded(Ok(VLit(a)), h)
  {
  }

  /** A string no cache history makes a cache reference. */
  ghost predicate NeverCacheKey(rules: Rules, s: string) {
    forall h :: !rules.isCacheKey(h, s)
  }

  /** A string that holds no directive: it does not begin with ESC and is never a cache reference. */
  ghost predicate InertString(rules: Rules, s: string) {
    (s == [] || s[0] != ESC[0]) && NeverCacheKey(rules, s)
  }

  /** Every string in the node, keys included, is inert. */
  ghost predicate Inert(rules: Rules, n: Node)
    decreases n
  {
    match n
    case Str(s) => InertString(rules, s)
    case Arr(items) => forall i :: 0 <= i < |items| ==> Inert(rules, items[i])
    case Hsh(es) => forall i :: 0 <= i < |es| ==> Inert(rules, es[i].0) && Inert(rules, es[i].1)
    case Lit(_) => true
  }

  /**
   * Reference reading of a node as plain data: strings, arrays, hashes
   * (through Hash#store) and atoms, with no directive interpreted.
   */
  function Plain(n: Node): Value
    decreases n, 1
  {
    match n
    case Str(s) => VStr(s)
    case Arr(items) => VArr(PlainItems(n))
    case Hsh(_) => VMap(StoreAll([], PlainPairs(n)))
    case Lit(a) => VLit(a)
  }

  function PlainItems(n: Node): seq<Value>
    requires n.Arr?
    decreases n, 0
  {
    seq(|n.items|, i requires 0 <= i < |n.items| => Plain(n.items[i]))
  }

  function PlainPairs(n: Node): Pairs
    requires n.Hsh?
    decreases n, 0
  {
    seq(|n.entries|, i requires 0 <= i < |n.entries| => (Plain(n.entries[i].0), Plain(n.entries[i].1)))
  }

  lemma InertStringIsPlain(t: DecoderTable, rules: Rules, h: History, s: string, asMapKey: bool)
    requires PrefixSafe(t) && EscapedKeys(t) && InertString(rules, s)
    ensures DecodeString(t, rules, h, s, asMapKey).value == Ok(VStr(s))
    ensures VStr(s).s !in t
  {
    assert !rules.isCacheKey(h, s);
    forall k | k in t
      ensures k != Prefix2(s) && k != s
    {
      if s != [] {
        assert Prefix2(s)[0] == s[0];
      }
    }
  }

  /**
   * Decoding data that holds no directive, under a table whose keys all
   * begin with ESC, gives the data back as it is: nothing is unescaped,
   * no tag is recognised, no cache reference is replaced.
   */
  lemma {:induction false} InertDecodesToPlain(t: DecoderTable, rules: Rules, h: History, n: Node, asMapKey: bool)
    requires PrefixSafe(t) && EscapedKeys(t) && Inert(rules, n)
    ensures Decode(t, rules, h, n, asMapKey).value == Ok(Plain(n))
    decreases n, 2
  {
    match n
    case Str(s) =>
      InertStringIsPlain(t, rules, h, s, asMapKey);
    case Arr(items) =>
      InertItems(t, rules, h, n, 0, [], asMapKey);
      assert [] + PlainItems(n)[0..] == PlainItems(n);
    case Hsh(es) =>
      if |es| == 1 {
        var key := es[0].0;
        InertDecodesToPlain(t, rules, h, key, true);
        if key.Str? {
          InertStringIsPlain(t, rules, h, key.s, true);
        }
        assert TableLookup(t, Plain(key)) == None;
        var kd := Decode(t, rules, h, key, true);
        assert FindEncodedHashDecoder(t, rules, h, n) == Found(Ok(None), kd.history);
        assert Decode(t, rules, h, n, asMapKey) == DecodeEntries(t, rules, kd.history, n, 0, []);
        InertEntries(t, rules, kd.history, n, 0, []);
      } else {
        InertEntries(t, rules, h, n, 0, []);
      }
      assert PlainPairs(n)[0..] == PlainPairs(n);
    case Lit(_) =>
  }

  lemma {:induction false} InertItems(t: DecoderTable, rules: Rules, h: History, n: Node, i: nat, acc: seq<Value>, asMapKey: bool)
    requires PrefixSafe(t) && EscapedKeys(t) && n.Arr? && i <= |n.items| && Inert(rules, n)
    ensures DecodeItems(t, rules, h, n, i, acc, asMapKey).value == Ok(VArr(acc + PlainItems(n)[i..]))
    decreases n, 1, |n.items| - i
  {
    if i < |n.items| {
      InertDecodesToPlain(t, rules, h, n.items[i], asMapKey);
      var d := Decode(t, rules, h, n.items[i], asMapKey);
      InertItems(t, rules, d.history, n, i + 1, acc + [Plain(n.items[i])], asMapKey);
      ConsTail(acc, PlainItems(n), i);
    } else {
      assert acc + PlainItems(n)[i..] == acc;
    }
  }

  lemma ConsTail<T>(acc: seq<T>, xs: seq<T>, i: nat)
    requires i < |xs|
    ensures acc + [xs[i]] + xs[i + 1..] == acc + xs[i..]
  {
    assert xs[i..] == [xs[i]] + xs[i + 1..];
  }

  lemma {:induction false} InertEntries(t: DecoderTable, rules: Rules, h: History, n: Node, i: nat, acc: Pairs)
    requires PrefixSafe(t) && EscapedKeys(t) && n.Hsh? && i <= |n.entries| && Inert(rules, n)
    ensures DecodeEntries(t, rules, h, n, i, acc).value == Ok(VMap(StoreAll(acc, PlainPairs(n)[i..])))
    decreases n, 1, |n.entries| - i
  {
    if i < |n.entries| {
      var ps := PlainPairs(n)[i..];
      InertDecodesToPlain(t, rules, h, n.entries[i].0, true);
      var k := Decode(t, rules, h, n.entries[i].0, true);
      InertDecodesToPlain(t, rules, k.history, n.entries[i].1, false);
      var v := Decode(t, rules, k.history, n.entries[i].1, false);
      var acc' := Store(acc, Plain(n.entries[i].0), Plain(n.entries[i].1));
      InertEntries(t, rules, v.history, n, i + 1, acc');
      assert ps[0] == (Plain(n.entries[i].0), Plain(n.entries[i].1)) && ps[1..] == PlainPairs(n)[i + 1..];
    }
  }
}
