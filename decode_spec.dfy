/**
 * The decoding of lib/transit/decoder.rb as functions.  The cache object
 * that the Ruby code mutates is threaded explicitly: every function takes
 * the cache's registration history and returns the history it leaves
 * behind.  The Decoder class in decoder.dfy is proved to compute exactly
 * these functions.
 */
module DecodeSpec {
  import opened Wrappers
  import opened Transit
  import opened Values
  import opened RollingCache

  /** An entry of the decoder table: one of the Decoder's own methods, or a registered block. */
  datatype DecoderFn =
      /** `decode_keyword`, `decode_float`, ...: hand the payload to the parser of one scalar kind. */
    | ScalarFn(kind: ScalarKind)
      /** `method(:decode)`, bound to the quote tag. */
    | QuoteFn
      /** `decode_set`. */
    | SetFn
      /** `decode_list`. */
    | ListFn
      /** `decode_ints`, `decode_longs`, ...: `decode_typed_array` with a fixed element kind. */
    | TypedArrayFn(elementKind: string)
      /** A block given to `register`, seen as a function of its payload. */
    | BlockFn(f: Node -> Value)
  {
    /** The decoders that decode their payload again. */
    predicate IsStructural() {
      QuoteFn? || SetFn? || ListFn? || TypedArrayFn?
    }
  }

  type DecoderTable = map<string, DecoderFn>

  /**
   * No key short enough to be the two-character prefix `str[0..1]` of a
   * string is bound to a structural decoder.  Then decoding a string never
   * decodes again, so decoding terminates whatever the cache answers.
   */
  predicate PrefixSafe(t: DecoderTable) {
    forall k :: k in t && |k| <= 2 ==> !t[k].IsStructural()
  }

  /** The two-character scalar prefixes of `default_options`, ESC followed by one character. */
  function ScalarPrefixes(): DecoderTable {
    map[
      "~:" := ScalarFn(Keyword),
      "~b" := ScalarFn(ByteArray),
      "~d" := ScalarFn(Float),
      "~f" := ScalarFn(BigDecimal),
      "~c" := ScalarFn(Char),
      "~$" := ScalarFn(TransitSymbol),
      "~t" := ScalarFn(Instant),
      "~u" := ScalarFn(Uuid),
      "~r" := ScalarFn(Uri)
    ]
  }

  /** The structural tags of `default_options`, each TAG followed by a name. */
  function StructuralTags(): DecoderTable {
    map[
      "~#'" := QuoteFn,
      "~#t" := ScalarFn(Instant),
      "~#set" := SetFn,
      "~#list" := ListFn,
      "~#ints" := TypedArrayFn("ints"),
      "~#longs" := TypedArrayFn("longs"),
      "~#floats" := TypedArrayFn("floats"),
      "~#doubles" := TypedArrayFn("doubles"),
      "~#bools" := TypedArrayFn("bools")
    ]
  }

  /** The scalar kind each prefix character of `default_options` selects, as an independent reference. */
  function PrefixKind(c: char): Option<ScalarKind> {
    match c
    case ':' => Some(Keyword)
    case 'b' => Some(ByteArray)
    case 'd' => Some(Float)
    case 'f' => Some(BigDecimal)
    case 'c' => Some(Char)
    case '$' => Some(TransitSymbol)
    case 't' => Some(Instant)
    case 'u' => Some(Uuid)
    case 'r' => Some(Uri)
    case _ => None
  }

  /** A two-character key is a scalar prefix exactly when it is ESC and a prefix character, bound to that character's kind. */
  lemma ScalarPrefixesByMarker(k: string)
    requires |k| == 2
    ensures k in ScalarPrefixes() <==> k[0] == ESC[0] && PrefixKind(k[1]).Some?
    ensures k in ScalarPrefixes() ==> ScalarPrefixes()[k] == ScalarFn(PrefixKind(k[1]).value)
  {
    if k[0] == ESC[0] {
      assert k == [ESC[0], k[1]];
    }
  }

  /** Every scalar prefix is ESC followed by one of `:bdfc$tur`, bound to a scalar parser. */
  lemma ScalarPrefixesShape()
    ensures forall k :: k in ScalarPrefixes() ==>
              |k| == 2 && k[0] == ESC[0] && k[1] in ":bdfc$tur" && ScalarPrefixes()[k].ScalarFn?
  {
  }

  /** Every structural tag is TAG followed by a non-empty name, bound to one of the Decoder's own methods. */
  lemma StructuralTagsShape()
    ensures forall k :: k in StructuralTags() ==>
              |k| > |TAG| && k[..|TAG|] == TAG && !StructuralTags()[k].BlockFn?
  {
  }

  /** `default_options[:decoders]`: the scalar prefixes and the structural tags, a prefix-safe table. */
  function DefaultDecoders(): (t: DecoderTable)
    ensures PrefixSafe(t)
  {
    ScalarPrefixesShape();
    StructuralTagsShape();
    UnionOfPrefixesAndTags(ScalarPrefixes(), StructuralTags());
    ScalarPrefixes() + StructuralTags()
  }

  /** The table a Decoder starts with: the `:decoders` option when given, the default table otherwise. */
  function InitialDecoders(custom: Option<DecoderTable>): (t: DecoderTable)
    requires custom.Some? ==> PrefixSafe(custom.value)
    ensures PrefixSafe(t)
    ensures custom.Some? ==> t == custom.value
  {
    if custom.Some? then custom.value else DefaultDecoders()
  }

  /**
   * Every key of the default table begins with ESC and is bound to one of
   * the Decoder's own methods; only tags bind decoders that decode again;
   * the two-character keys are ESC followed by one of `:bdfc$tur`.
   */
  lemma DefaultDecodersShape()
    ensures var t := DefaultDecoders();
            && (forall k :: k in t ==> |k| >= 2 && k[0] == ESC[0] && !t[k].BlockFn?)
            && (forall k :: k in t && t[k].IsStructural() ==> |k| > |TAG| && k[..|TAG|] == TAG)
            && (forall k :: k in t && |k| == 2 ==> k[1] in ":bdfc$tur" && t[k].ScalarFn?)
  {
    ScalarPrefixesShape();
    StructuralTagsShape();
    UnionOfPrefixesAndTags(ScalarPrefixes(), StructuralTags());
  }

  lemma UnionOfPrefixesAndTags(scalars: DecoderTable, tags: DecoderTable)
    requires forall k :: k in scalars ==> |k| == 2 && k[0] == ESC[0] && k[1] in ":bdfc$tur" && scalars[k].ScalarFn?
    requires forall k :: k in tags ==> |k| > |TAG| && k[..|TAG|] == TAG && !tags[k].BlockFn?
    ensures PrefixSafe(scalars + tags)
    ensures forall k :: k in scalars + tags ==> |k| >= 2 && k[0] == ESC[0] && !(scalars + tags)[k].BlockFn?
    ensures forall k :: k in scalars + tags && (scalars + tags)[k].IsStructural() ==> |k| > |TAG| && k[..|TAG|] == TAG
    ensures forall k :: k in scalars + tags && |k| == 2 ==> k[1] in ":bdfc$tur" && (scalars + tags)[k].ScalarFn?
  {
    var t := scalars + tags;
    forall k | k in t
      ensures |k| >= 2 && k[0] == ESC[0] && !t[k].BlockFn?
      ensures t[k].IsStructural() ==> k in tags
      ensures |k| == 2 ==> k !in tags
    {
      if k in tags {
        assert k[..|TAG|][0] == TAG[0];
      }
    }
  }

  /** The escaped-literal test matched at the start of the string only: ESC followed by SUB or ESC. */
  predicate IsEscaped(s: string) {
    |s| >= 2 && s[0] == ESC[0] && (s[1] == SUB[0] || s[1] == ESC[0])
  }

  /**
   * `IS_ESCAPED =~ str` as Ruby evaluates it: `^` matches at the start of
   * every line, so ESC followed by SUB or ESC right after a newline matches too.
   */
  predicate IsEscapedAsWritten(s: string) {
    exists i :: 0 <= i < |s| && (i == 0 || s[i - 1] == '\n') && IsEscaped(s[i..])
  }

  /** `str[0..1]`: the first two characters, or the whole string when it is shorter. */
  function Prefix2(s: string): string {
    s[..if |s| < 2 then |s| else 2]
  }

  /** `str[2..-1]`: the characters from index 2 on; Ruby gives nil when the string is shorter than 2. */
  function Rest2(s: string): Node {
    if |s| < 2 then Lit(Null) else Str(s[2..])
  }

  /** A decoder that does not decode again, applied to its payload. */
  function ApplyScalar(fn: DecoderFn, payload: Node): Value
    requires !fn.IsStructural()
  {
    match fn
    case ScalarFn(kind) => Scalar(kind, payload)
    case BlockFn(f) => f(payload)
  }

  /**
   * `parse_string`, with the escaped-literal test anchored at the start of
   * the string: escaped literal, then a registered prefix, then the plain string.
   */
  function ParseString(t: DecoderTable, s: string): Value
    requires PrefixSafe(t)
  {
    if IsEscaped(s) then VStr(s[1..])
    else if Prefix2(s) in t then ApplyScalar(t[Prefix2(s)], Rest2(s))
    else VStr(s)
  }

  /** `parse_string` as written, with the line-anchored `IS_ESCAPED`: the first character is dropped on a match anywhere. */
  function ParseStringAsWritten(t: DecoderTable, s: string): Value
    requires PrefixSafe(t)
  {
    if IsEscapedAsWritten(s) then VStr(s[1..])
    else if Prefix2(s) in t then ApplyScalar(t[Prefix2(s)], Rest2(s))
    else VStr(s)
  }

  /** A decode step: the value or the error raised, and the cache history afterwards. */
  datatype Decoded = Decoded(value: Result<Value, DecodeError>, history: History)

  /** The outcome of `find_encoded_hash_decoder`, and the cache history afterwards. */
  datatype Found = Found(decoder: Result<Option<DecoderFn>, DecodeError>, history: History)

  /**
   * `decode_string`: a cacheable string is registered and parsed, otherwise a
   * cache reference is parsed as the string it stands for, otherwise the
   * string itself is parsed.  `encode` is called in the first case only.
   */
  function DecodeString(t: DecoderTable, rules: Rules, h: History, s: string, asMapKey: bool): (r: Decoded)
    requires PrefixSafe(t)
    ensures r.history == if rules.cacheable(h, s, asMapKey) then h + [Registration(s, asMapKey)] else h
  {
    if rules.cacheable(h, s, asMapKey) then
      Decoded(Ok(ParseString(t, s)), h + [Registration(s, asMapKey)])
    else if rules.isCacheKey(h, s) then
      match rules.resolve(h, s, asMapKey)
      case None => Decoded(Err(CacheMiss(s)), h)
      case Some(original) => Decoded(Ok(ParseString(t, original)), h)
    else
      Decoded(Ok(ParseString(t, s)), h)
  }

  /** `@decoders[key]`: only a decoded String can name a table entry. */
  function TableLookup(t: DecoderTable, key: Value): Option<DecoderFn> {
    if key.VStr? && key.s in t then Some(t[key.s]) else None
  }

  /**
   * `decode`: strings, hashes and arrays are decoded, anything else is
   * returned unchanged.
   */
  function Decode(t: DecoderTable, rules: Rules, h: History, n: Node, asMapKey: bool): (r: Decoded)
    requires PrefixSafe(t)
    decreases n, 3
  {
    match n
    case Str(s) => DecodeString(t, rules, h, s, asMapKey)
    case Hsh(_) => DecodeHash(t, rules, h, n, asMapKey)
    case Arr(_) => DecodeItems(t, rules, h, n, 0, [], asMapKey)
    case Lit(a) => Decoded(Ok(VLit(a)), h)
  }

  /** `node.map {|n| decode(n, cache, as_map_key)}`, from element `i` on, after the decoded `acc`. */
  function DecodeItems(t: DecoderTable, rules: Rules, h: History, n: Node, i: nat, acc: seq<Value>, asMapKey: bool): (r: Decoded)
    requires PrefixSafe(t) && n.Arr? && i <= |n.items|
    decreases n, 1, |n.items| - i
  {
    if i == |n.items| then Decoded(Ok(VArr(acc)), h)
    else
      var d := Decode(t, rules, h, n.items[i], asMapKey);
      if d.value.Err? then d
      else
        DecodeItems(t, rules, d.history, n, i + 1, acc + [d.value.value], asMapKey)
  }

  /** `find_encoded_hash_decoder`: a one-entry hash whose key, decoded as a map key, names a table entry. */
  function FindEncodedHashDecoder(t: DecoderTable, rules: Rules, h: History, n: Node): (r: Found)
    requires PrefixSafe(t) && n.Hsh?
    ensures |n.entries| != 1 ==> r == Found(Ok(None), h)
    decreases n, 1
  {
    if |n.entries| != 1 then Found(Ok(None), h)
    else
      var key := Decode(t, rules, h, n.entries[0].0, true);
      match key.value
      case Err(e) => Found(Err(e), key.history)
      case Ok(k) => Found(Ok(TableLookup(t, k)), key.history)
  }

  /** `decode_hash`: a recognised tag decodes the sole value, anything else is rebuilt as a generic map. */
  function DecodeHash(t: DecoderTable, rules: Rules, h: History, n: Node, asMapKey: bool): (r: Decoded)
    requires PrefixSafe(t) && n.Hsh?
    decreases n, 2
  {
    var found := FindEncodedHashDecoder(t, rules, h, n);
    match found.decoder
    case Err(e) => Decoded(Err(e), found.history)
    case Ok(Some(fn)) =>
      CallDecoder(t, rules, found.history, fn, n.entries[0].1, asMapKey)
    case Ok(None) =>
      DecodeEntries(t, rules, found.history, n, 0, [])
  }

  /**
   * The `reduce` of `decode_hash` from entry `i` on, into `acc`: each key is
   * decoded as a map key, then its value as a non-key, then they are stored.
   */
  function DecodeEntries(t: DecoderTable, rules: Rules, h: History, n: Node, i: nat, acc: Pairs): (r: Decoded)
    requires PrefixSafe(t) && n.Hsh? && i <= |n.entries|
    decreases n, 1, |n.entries| - i
  {
    if i == |n.entries| then Decoded(Ok(VMap(acc)), h)
    else
      var k := Decode(t, rules, h, n.entries[i].0, true);
      if k.value.Err? then k
      else
        var v := Decode(t, rules, k.history, n.entries[i].1, false);
        if v.value.Err? then v
        else
          DecodeEntries(t, rules, v.history, n, i + 1, Store(acc, k.value.value, v.value.value))
  }

  /** `decoder.call(payload, cache, as_map_key)`. */
  function CallDecoder(t: DecoderTable, rules: Rules, h: History, fn: DecoderFn, payload: Node, asMapKey: bool): (r: Decoded)
    requires PrefixSafe(t)
    decreases payload, 5
  {
    match fn
    case QuoteFn => Decode(t, rules, h, payload, asMapKey)
    case SetFn => DecodeSet(t, rules, h, payload, asMapKey)
    case ListFn => DecodeList(t, rules, h, payload, asMapKey)
    case TypedArrayFn(kind) => DecodeTypedArray(t, rules, h, kind, payload, asMapKey)
    case ScalarFn(_) => Decoded(Ok(ApplyScalar(fn, payload)), h)
    case BlockFn(_) => Decoded(Ok(ApplyScalar(fn, payload)), h)
  }

  /** `decode_set`: `Set.new` of the decoded payload. */
  function DecodeSet(t: DecoderTable, rules: Rules, h: History, m: Node, asMapKey: bool): (r: Decoded)
    requires PrefixSafe(t)
    decreases m, 4
  {
    var d := Decode(t, rules, h, m, asMapKey);
    match d.value
    case Err(_) => d
    case Ok(v) => Decoded(ToSet(v), d.history)
  }

  /** `decode_list`: `TransitList.new` of the decoded payload. */
  function DecodeList(t: DecoderTable, rules: Rules, h: History, m: Node, asMapKey: bool): (r: Decoded)
    requires PrefixSafe(t)
    decreases m, 4
  {
    var d := Decode(t, rules, h, m, asMapKey);
    match d.value
    case Err(_) => d
    case Ok(v) => Decoded(Ok(ListOf(v)), d.history)
  }

  /** `decode_typed_array`: `TypedArray.new(kind, ...)` of the decoded payload. */
  function DecodeTypedArray(t: DecoderTable, rules: Rules, h: History, kind: string, m: Node, asMapKey: bool): (r: Decoded)
    requires PrefixSafe(t)
    decreases m, 4
  {
    var d := Decode(t, rules, h, m, asMapKey);
    match d.value
    case Err(_) => d
    case Ok(v) => Decoded(Ok(TypedArray(kind, v)), d.history)
  }

  /**
   * `Set.new(v)`: nil gives the empty set, an array its elements, a hash its
   * `[key, value]` pairs, a set its own members; any other value raises.
   */
  function ToSet(v: Value): (r: Result<Value, DecodeError>)
    ensures r.Ok? <==> v.VArr? || v.VMap? || v.SetOf? || v == VLit(Null)
    ensures r.Err? ==> r.error == NotEnumerable(v)
    ensures r.Ok? ==> r.value.SetOf?
  {
    match v
    case VArr(items) => Ok(SetOf(set x | x in items))
    case VMap(entries) => Ok(SetOf(set e | e in entries :: VArr([e.0, e.1])))
    case SetOf(members) => Ok(v)
    case VLit(Null) => Ok(SetOf({}))
    case _ => Err(NotEnumerable(v))
  }

  /** The members of `Set.new(v)`: the elements of an array, the `[key, value]` pairs of a hash. */
  lemma ToSetMembers(v: Value)
    ensures v.VArr? ==> forall x :: x in ToSet(v).value.members <==> x in v.items
    ensures v.VMap? ==> forall k, w :: VArr([k, w]) in ToSet(v).value.members <==> (k, w) in v.entries
    ensures v.VMap? ==> forall x :: x in ToSet(v).value.members ==> x.VArr? && |x.items| == 2
  {
  }
}
