# Transit decoder, modelled in Dafny

This project models `Transit::Decoder` from transit-ruby (`lib/transit/decoder.rb`)
and the marker strings of `lib/transit.rb`. The decoder turns a parsed JSON or
msgpack tree into Transit values. Along the way it updates the per-document
rolling cache. The model covers:

- the dispatch on the node's kind;
- the tagged-hash recognition of one-entry hashes;
- the generic maps built with `Hash#store`;
- the string-directive grammar of `parse_string`;
- the cache calls of `decode_string`;
- the default decoder table and `register`.

Layout, one module per file:

- `wrappers.dfy`: `Option` and `Result`.
- `transit.dfy`: `ESC`, `SUB`, `RES` and `TAG`.
- `values.dfy`: the parsed node, the decoded value, and a Ruby Hash as a
  sequence of pairs in insertion order. `Store` is `Hash#store`.
- `rolling_cache.dfy`: the cache as the decoder sees it. Its three queries
  are abstract functions of the history of `encode` calls. The class `Cache`
  records each `encode`.
- `decode_spec.dfy`: the decoder as functions. The cache history is passed
  in and handed back by every function. This module also holds the default
  table, `parse_string`, the line-anchored test as written, and `Set.new`.
- `decoder.dfy`: the class `Decoder` with its `@decoders` field, `register`,
  and the decoding methods. Each method threads one mutable `Cache` and is
  proved to return, and to leave the cache's history, as the function of
  the same name does.
- `parse_properties.dfy`, `decode_properties.dfy`, `tag_properties.dfy`,
  `cache_properties.dfy`, `history_properties.dfy`: what the decoder
  promises. Each group of lemmas is proved against reference definitions
  written independently of the decoder's own recursion: `DecodeAll`,
  `DecodePairs`, `Plain`, `PrefixKind`, `EscapeLiteral` and
  `AppendsCacheable`.

Termination. The recursion of `decode` goes back through the table
(`~#'` calls `decode` again). It terminates because the table keys of at
most two characters are never bound to decoders that decode again. That
condition is `PrefixSafe`. The default table meets it, and `register`
keeps it, because it only adds blocks.

Registration follows the code of `decode_string` (lib/transit/decoder.rb:62-63):
`cache.encode` is called every time `cacheable?` holds, not only the first time
a string appears, so the model makes no claim about first appearance.
`SoleKeyRegisteredTwice` shows one consequence: the key of an unrecognised
one-entry hash is registered twice.

Strings are parsed with the escaped-literal test anchored at the start of the
string, which is what escaping promises. The test as written is anchored at
the start of every line; that difference is the one entry under "## Findings",
and both forms are in the model.

## Model

| member | source | states |
|---|---|---|
| DecodeSpec.PrefixKind | lib/transit/decoder.rb:13-21 | the scalar kind each character after ESC selects in the default table |
| DecodeSpec.ScalarPrefixesByMarker | lib/transit/decoder.rb:13-21 | a two-character key is a built-in scalar prefix exactly when it is ESC followed by a prefix character, and it is bound to that character's parser |
| DecodeSpec.ScalarPrefixesShape | lib/transit/decoder.rb:13-21 | every built-in scalar prefix is ESC followed by one of `:bdfc$tur` and is bound to a scalar parser |
| DecodeSpec.StructuralTagsShape | lib/transit/decoder.rb:22-30 | every built-in structural key is TAG followed by a non-empty name and is bound to one of the Decoder's own methods |
| DecodeSpec.DefaultDecoders | lib/transit/decoder.rb:11-31 | the default table is prefix-safe, so decoding with it terminates |
| DecodeSpec.DefaultDecodersShape | lib/transit/decoder.rb:11-31 | every default key begins with ESC; only tag keys bind decoders that decode again; every two-character key is ESC followed by one of `:bdfc$tur` and bound to a scalar parser (the converse, that each such marker is a key, is ScalarPrefixesByMarker) |
| DecodeSpec.UnionOfPrefixesAndTags | lib/transit/decoder.rb:12-31 | the union of such prefixes and tags keeps the tags apart from the two-character keys, so the union is prefix-safe |
| DecodeSpec.ScalarPrefixes | lib/transit/decoder.rb:13-21 | the nine scalar prefixes with the parser each selects (definition; its shape is ScalarPrefixesShape, its contents ScalarPrefixesByMarker) |
| DecodeSpec.StructuralTags | lib/transit/decoder.rb:22-30 | the nine structural tags with the method each selects (definition; its contents are BuiltinTags) |
| DecodeSpec.IsEscaped | lib/transit/decoder.rb:72-74 | the escaped-literal test anchored at the start of the string: ESC followed by ESC or SUB (definition; the corrected half of the finding) |
| DecodeSpec.IsEscapedAsWritten | lib/transit/decoder.rb:72-74 | the test as Ruby evaluates `^`: ESC followed by ESC or SUB at the start of the string or right after any newline (definition; the as-written half of the finding) |
| DecodeSpec.Prefix2 | lib/transit/decoder.rb:79 | `str[0..1]`: the first two characters, or the whole string when it is shorter (definition) |
| DecodeSpec.Rest2 | lib/transit/decoder.rb:80 | `str[2..-1]`: the characters from index 2 on, and nil for a string shorter than two (definition) |
| DecodeSpec.ParseString | lib/transit/decoder.rb:76-84 | `parse_string` with the start-anchored test: escaped literal, then the decoder bound to the first two characters, then the string itself (definition; properties in DirectiveOrPlain, EscapedLiteralWins, EscapeRoundTrip) |
| DecodeSpec.ParseStringAsWritten | lib/transit/decoder.rb:76-84 | `parse_string` with the line-anchored test as written (definition; MultilineEscapeMisfires and AsWrittenAgreesOnSingleLine) |
| DecodeSpec.TableLookup | lib/transit/decoder.rb:50 | `@decoders[key]`: a decoded String that is a key of the table selects its decoder; nothing else does (definition) |
| DecodeSpec.Decode | lib/transit/decoder.rb:34-45 | strings go to DecodeString, hashes to DecodeHash, arrays element by element with the same flag, anything else unchanged with the cache untouched (definition; properties in ArrayDecodesElementwise, AtomsUnchanged, DecodeShape, DecodeRegistersCacheable) |
| DecodeSpec.DecodeItems | lib/transit/decoder.rb:40-41 | the `map` over the elements, each decoded from the cache the previous one left, the first error ending it (definition; equal to DecodeAll by ItemsAgree) |
| DecodeSpec.DecodeHash | lib/transit/decoder.rb:53-59 | a decoder found for the hash runs on its sole value with the caller's flag; otherwise the generic map is built (definition; properties in OneEntryHash, GenericMapDecode) |
| DecodeSpec.DecodeEntries | lib/transit/decoder.rb:57 | the `reduce` with `h.store`: each key decoded as a map key, then its value as a non-key, then stored (definition; equal to storing DecodePairs by EntriesAgree) |
| DecodeSpec.CallDecoder | lib/transit/decoder.rb:55 | `decoder.call(payload, cache, as_map_key)` for each kind of table entry: `decode` for `~#'`, the set, list and typed-array decoders, a scalar parser or a user block on the raw payload (definition) |
| DecodeSpec.DecodeSet | lib/transit/decoder.rb:114-116 | `Set.new` of the decoded payload; an error while decoding passes through (definition; ToSet and SetTagDecodes) |
| DecodeSpec.DecodeList | lib/transit/decoder.rb:118-120 | `TransitList.new` of the decoded payload (definition; ListTagDecodes) |
| DecodeSpec.DecodeTypedArray | lib/transit/decoder.rb:130-132 | `TypedArray.new(type, ...)` of the decoded payload (definition; TypedArrayTagDecodes) |
| RollingCache.Cache.IsCacheable | lib/transit/decoder.rb:62 | `cache.cacheable?(string, as_map_key)`, as the cache's rules answer for its current history |
| RollingCache.Cache.IsCacheKey | lib/transit/decoder.rb:65 | `cache.cache_key?(string)`, as the cache's rules answer for its current history |
| RollingCache.Cache.Decode | lib/transit/decoder.rb:66 | `cache.decode(string, as_map_key)`: the string a reference stands for, if the cache has one |
| Values.StoreAll | lib/transit/decoder.rb:57 | the pairs stored in order with `h.store` (definition; StoreAllLookup and StoreAllKeepsDistinct) |
| DecodeSpec.InitialDecoders | lib/transit/decoder.rb:6-8 | the starting table is the `:decoders` option when given, the default table otherwise; it is prefix-safe |
| DecodeSpec.DecodeString | lib/transit/decoder.rb:61-70 | `encode` is called exactly when the string is cacheable, and it appends that one registration |
| DecodeSpec.FindEncodedHashDecoder | lib/transit/decoder.rb:47-48 | a hash that does not have exactly one entry finds no decoder and leaves the cache alone |
| DecodeSpec.ToSet | lib/transit/decoder.rb:114-116 | `Set.new` succeeds exactly on arrays, hashes, sets and nil, gives a set, and otherwise raises on that value |
| DecodeSpec.ToSetMembers | lib/transit/decoder.rb:114-116 | the set of an array holds exactly its elements; the set of a hash holds exactly its `[key, value]` pairs |
| TransitDecoder.Decoder.constructor | lib/transit/decoder.rb:6-9 | the new decoder holds the default table, or the given one in its place; that table is prefix-safe, so the decoder is valid |
| TransitDecoder.Decoder.Register | lib/transit/decoder.rb:154-162 | arity 1 binds exactly `k` to the block, and no other entry changes; any other arity raises ArgumentError with the arity message and leaves the table unchanged; validity is kept |
| TransitDecoder.Decoder.Decode | lib/transit/decoder.rb:34-45 | the result and the new cache history are those of `DecodeSpec.Decode`; the array loop decodes element by element and stops at the first error |
| TransitDecoder.Decoder.DecodeString | lib/transit/decoder.rb:61-70 | the result and the new cache history are those of `DecodeSpec.DecodeString` |
| TransitDecoder.Decoder.FindEncodedHashDecoder | lib/transit/decoder.rb:47-51 | the decoder found and the new cache history are those of `DecodeSpec.FindEncodedHashDecoder` |
| TransitDecoder.Decoder.DecodeHash | lib/transit/decoder.rb:53-59 | the result and the new cache history are those of `DecodeSpec.DecodeHash`, with the `reduce` loop storing each pair |
| TransitDecoder.Decoder.CallDecoder | lib/transit/decoder.rb:55 | `decoder.call` gives the result and the new cache history of `DecodeSpec.CallDecoder` |
| TransitDecoder.Decoder.DecodeSet | lib/transit/decoder.rb:114-116 | the result and the new cache history are those of `DecodeSpec.DecodeSet` |
| TransitDecoder.Decoder.DecodeList | lib/transit/decoder.rb:118-120 | the result and the new cache history are those of `DecodeSpec.DecodeList` |
| TransitDecoder.Decoder.DecodeTypedArray | lib/transit/decoder.rb:130-132 | the result and the new cache history are those of `DecodeSpec.DecodeTypedArray` |
| RollingCache.Cache.Encode | lib/transit/decoder.rb:63 | `cache.encode` appends exactly one registration to the history |
| RollingCache.AppendsOne | lib/transit/decoder.rb:62-63 | registering a string the cache calls cacheable extends the history by cacheable registrations only |
| RollingCache.AppendsCacheableTrans | lib/transit/decoder.rb:34-59 | two runs of cacheable registrations in a row form one such run |
| Values.Keys | lib/transit/decoder.rb:57 | a Hash has one key per entry |
| Values.Lookup | lib/transit/decoder.rb:57 | a lookup finds a value exactly when the key is among the Hash's keys |
| Values.Store | lib/transit/decoder.rb:57 | after `h.store(k, v)`, `k` maps to `v` and every other key keeps its value; an existing key keeps its position and a new key is appended |
| Values.StoreKeepsDistinct | lib/transit/decoder.rb:57 | storing never creates a duplicate key |
| Values.StoreAllLookup | lib/transit/decoder.rb:57 | after a run of stores, the last pair stored for a key wins, and keys never stored keep their old value |
| Values.StoreAllKeepsDistinct | lib/transit/decoder.rb:57 | a run of stores never creates a duplicate key |
| ParseProperties.EscapeLiteral | lib/transit/decoder.rb:74-78 | the escaping that the escaped-literal rule undoes: the escaped form passes the test exactly when the string begins with ESC or SUB, and then dropping its first character gives the string back; otherwise it is the string itself |
| ParseProperties.EscapedLiteralWins | lib/transit/decoder.rb:74-78 | `~~…` and `~^…` lose exactly their leading ESC, even when the table binds their first two characters |
| ParseProperties.DirectiveOrPlain | lib/transit/decoder.rb:76-84 | (start-anchored test) a string that is not an escaped literal goes to the decoder bound to its first two characters, with the characters from index 2 on; with no decoder bound, it is returned unchanged |
| ParseProperties.UnboundPrefixLiteral | lib/transit/decoder.rb:79-83 | under a table whose only short keys are built-in-style scalar prefixes, a string that is not an escaped literal and whose second character names no prefix is returned unchanged |
| ParseProperties.UnregisteredPrefixStaysLiteral | lib/transit/decoder.rb:79-83 | with the default table, `~i42` parses to itself |
| ParseProperties.ScalarPrefixSelected | lib/transit/decoder.rb:79-80 | (start-anchored test) under any prefix-safe table, user-registered keys included, a string that is not an escaped literal and begins with a key bound to a scalar parser goes to that parser, with the characters from index 2 on |
| ParseProperties.BuiltinPrefixDecodes | lib/transit/decoder.rb:13-21 | (start-anchored test) with the default table, ESC followed by a prefix character hands the rest of the string to that character's parser |
| ParseProperties.EscapeRoundTrip | lib/transit/decoder.rb:72-84 | under a table whose keys all begin with ESC, parsing the escaped form of any string gives the string back |
| ParseProperties.MultilineEscapeMisfires | lib/transit/decoder.rb:74-78 | as written, `"a\n~~b"` is left alone by escaping but is parsed to `"\n~~b"`; the corrected test gives it back |
| ParseProperties.MultilineKeywordMisfires | lib/transit/decoder.rb:74-78 | as written, under any table, the keyword string `"~:a\n~~b"` is parsed to the plain string `":a\n~~b"` instead of reaching the keyword parser |
| ParseProperties.MultilineKeywordCorrected | lib/transit/decoder.rb:79-80 | with the corrected test and the default table, `"~:a\n~~b"` goes to the keyword parser with `"a\n~~b"` |
| ParseProperties.AsWrittenAgreesOnSingleLine | lib/transit/decoder.rb:74-78 | on strings without a newline, the line-anchored test and the string-anchored test agree, and so do the two parses |
| DecodeProperties.DecodeAll | lib/transit/decoder.rb:40-41 | the reference array decode, when it succeeds, gives an array of the input's length |
| DecodeProperties.ItemsAgree | lib/transit/decoder.rb:40-41 | the decoder's array loop equals the reference decode of the remaining elements, after the ones already decoded |
| DecodeProperties.ArrayDecodesElementwise | lib/transit/decoder.rb:40-41 | decoding an array is decoding its elements in order with the same flag, each from the cache the previous one left; the first error ends it |
| DecodeProperties.DecodePairs | lib/transit/decoder.rb:57 | the reference pair decode, when it succeeds, gives one pair per entry |
| DecodeProperties.EntriesAgree | lib/transit/decoder.rb:57 | the `reduce` equals decoding every key as a map key and every value as a non-key, in order, and then storing the pairs |
| DecodeProperties.GenericMapDecode | lib/transit/decoder.rb:47-58 | a hash without exactly one entry is never a tag; it is the generic map of its decoded pairs |
| DecodeProperties.GenericMapLastWins | lib/transit/decoder.rb:53-58 | in that map no key occurs twice, and each key holds the value of the last entry whose key decoded to it |
| DecodeProperties.DecodeShape | lib/transit/decoder.rb:34-59 | a decoded array has the input's length; a decoded hash without exactly one entry is a map with distinct keys |
| DecodeProperties.AtomsUnchanged | lib/transit/decoder.rb:42-43 | numbers, booleans and nil come back unchanged, and the cache is untouched |
| DecodeProperties.InertStringIsPlain | lib/transit/decoder.rb:61-84 | under a table whose keys begin with ESC, a string that does not begin with ESC and is never a cache reference decodes to itself |
| DecodeProperties.InertDecodesToPlain | lib/transit/decoder.rb:34-84 | data with no directive in it decodes to itself, read as plain data, under a table whose keys begin with ESC |
| DecodeProperties.InertItems | lib/transit/decoder.rb:40-41 | the array loop over such data gives the plain elements |
| DecodeProperties.InertEntries | lib/transit/decoder.rb:57 | the `reduce` over such data stores the plain pairs |
| TagProperties.OneEntryHash | lib/transit/decoder.rb:47-59 | for a one-entry hash, the key is decoded as a map key. An error there is the hash's error. A key that names a table entry runs that decoder on the raw value, with the caller's flag. Otherwise the hash is the generic map of its entry, decoded again from the cache the first key decoding left |
| TagProperties.SoleKeyRegisteredTwice | lib/transit/decoder.rb:49-57 | the cacheable key of an unrecognised one-entry hash is registered twice |
| TagProperties.TagStringIsLiteral | lib/transit/decoder.rb:79-83 | (start-anchored test) unless TAG itself is a key of the table, a tag string parses to itself, whatever other short keys are registered |
| TagProperties.TagDispatch | lib/transit/decoder.rb:49-55 | in any table that does not bind TAG itself, a tag that the table binds, and that is never a cache reference, runs its decoder on the raw value, with the cache as the key's decoding left it |
| TagProperties.UnknownTagFallback | lib/transit/decoder.rb:54-57 | a tag that the table does not bind is not an error: the hash is the one-entry generic map |
| TagProperties.BuiltinTags | lib/transit/decoder.rb:22-30 | each of the nine built-in tags is bound to its decoder, and each typed-array tag carries its own kind name |
| TagProperties.DefaultTagUnbound | lib/transit/decoder.rb:11-31 | the default table is prefix-safe and does not bind TAG itself, the one condition the tag lemmas put on a table |
| TagProperties.DefaultTagEntry | lib/transit/decoder.rb:11-31 | a structural tag selects the same decoder in the whole default table |
| TagProperties.QuoteTagDecodes | lib/transit/decoder.rb:22-45 | in a table binding `~#'` to `decode` (the default does, BuiltinTags), `~#'` gives exactly `decode` of its value |
| TagProperties.InstantTagDecodes | lib/transit/decoder.rb:122-124 | in a table binding `~#t` to the instant parser (the default does), `~#t` hands its raw value to that parser |
| TagProperties.SetTagDecodes | lib/transit/decoder.rb:114-116 | in a table binding `~#set` to `decode_set` (the default does), `~#set` gives `Set.new` of its decoded value, and errors pass through |
| TagProperties.ListTagDecodes | lib/transit/decoder.rb:118-120 | in a table binding `~#list` to `decode_list` (the default does), `~#list` gives `TransitList.new` of its decoded value |
| TagProperties.TypedArrayTagDecodes | lib/transit/decoder.rb:130-152 | in a table binding a typed-array tag to its wrapper (the default does for all five), the tag gives `TypedArray.new` of its decoded value, with the tag's own kind name |
| TagProperties.RegisteredPrefix | lib/transit/decoder.rb:154-156 | after `register(k)`, a string that is not an escaped literal and begins with the two characters `k` goes to the block, with the characters from index 2 on; the table stays prefix-safe |
| TagProperties.RegisteredTag | lib/transit/decoder.rb:154-156 | after `register(TAG + name)` on a table that does not bind TAG itself, a one-entry hash with that tag hands its raw value to the block |
| CacheProperties.CacheableBeforeReference | lib/transit/decoder.rb:62-66 | the cacheable test comes first: a string that is both cacheable and a cache key is registered and parsed as itself |
| CacheProperties.ElementDecodedAt | lib/transit/decoder.rb:40-41 | in an array that decodes, element `k` is the decoding of the `k`-th node from the cache as the elements before it left it |
| CacheProperties.ReferenceReplaysString | lib/transit/decoder.rb:61-70 | in an array that decodes, a reference at any position `j` that the cache, as the elements before it left it, resolves to the string of an earlier element `i`, registered there, decodes to the same value as element `i` |
| CacheProperties.ReferenceRightAfterString | lib/transit/decoder.rb:61-70 | a string followed by a reference to it decode to the same value, and only the string is registered |
| CacheProperties.FirstErrorEndsArray | lib/transit/decoder.rb:40-41 | the first element that raises ends the array with that error and the cache as it stood then |
| CacheProperties.CacheMissAbortsArray | lib/transit/decoder.rb:65-66 | a reference that the cache cannot resolve aborts the whole array that holds it |
| HistoryProperties.DecodeRegistersCacheable | lib/transit/decoder.rb:34-70 | decoding only appends registrations to the history, each of a string that was cacheable when it was registered |
| HistoryProperties.ItemsRegisterCacheable | lib/transit/decoder.rb:40-41 | the same holds for the array loop |
| HistoryProperties.FindRegistersCacheable | lib/transit/decoder.rb:47-51 | the same holds for the tag check |
| HistoryProperties.HashRegistersCacheable | lib/transit/decoder.rb:53-59 | the same holds for `decode_hash` |
| HistoryProperties.EntriesRegisterCacheable | lib/transit/decoder.rb:57 | the same holds for the generic-map `reduce` |
| HistoryProperties.CallRegistersCacheable | lib/transit/decoder.rb:55 | the same holds for a decoder call |

## Left out

- The scalar parsers (`URI()`, `to_sym`, `ByteArray.from_base64`, `Float()`, `BigDecimal.new`, `Char.new`, `TransitSymbol.new`, `Time.parse(...).utc`, `UUID.new`) are foreign library calls. Some of them use floating point. Each is the opaque value `Scalar(kind, payload)`, and their parse failures are not modelled.
- The RollingCache implementation (`lib/transit/rolling_cache.rb`) is not part of this model. `cacheable?`, `cache_key?` and `decode` are abstract functions of the history of `encode` calls. A `nil` from `cache.decode` is modelled as the error `CacheMiss`, which stands for the failure of `parse_string` on `nil`.
- Reader, Writer, handlers and the JSON and msgpack parsers are I/O and wiring. The parsed tree is the input `Node`.
- Numbers are unbounded integers. Floats coming from the parser are not modelled.
- Ruby's equality and hashing of keys are not modelled. The model uses Dafny's structural equality, both for `Hash#store` and for the members of `Set.new`.
- `Set.new` is modelled on arrays, hashes, sets and `nil`. Any other value raises `NotEnumerable`.
- `Method` objects and procs: a user block is a function of the payload alone, and its arity is an integer argument to `Register`. The ignoring of extra call arguments by a proc is not modelled.
- DecodeSpec.InitialDecoders: a custom `:decoders` table must be prefix-safe, so that decoding terminates; `initialize` accepts any table.
- TransitDecoder.Decoder.constructor: a custom `:decoders` table must be prefix-safe, so that decoding terminates. An explicit `nil` for `:decoders` is not modelled.
- DecodeSpec.DecodeString: parses with the escaped-literal test anchored at the start of the string. The test as written also matches ESC followed by ESC or SUB right after a newline, so on such multi-line strings the code drops the first character where the model does not (see "## Findings"); on strings without a newline the two agree (AsWrittenAgreesOnSingleLine).
- TransitDecoder.Decoder.DecodeString: the same start-anchored test as DecodeSpec.DecodeString, with the same difference on multi-line strings.
- TransitDecoder.Decoder.Decode: reaches `parse_string` through DecodeString, so it carries the same difference on multi-line strings.
- DecodeProperties.InertStringIsPlain: proved for the start-anchored test. With the test as written, an inert string with ESC ESC or ESC SUB after a newline, such as `"a\n~~b"`, loses its first character.
- DecodeProperties.InertDecodesToPlain: proved for the start-anchored test, with the same exception for multi-line strings as InertStringIsPlain.
- DecodeProperties.InertItems: proved for the start-anchored test. With the test as written, an inert element such as `"a\n~~b"` decodes to `"\n~~b"`, so the array is not returned unchanged.
- DecodeProperties.InertEntries: proved for the start-anchored test, with the same exception for multi-line keys and values of the generic map.
- TagProperties.TagDispatch: proved for the start-anchored test. With the test as written, a bound tag whose name holds a newline followed by ESC ESC or ESC SUB, such as `"~#a\n~~b"`, loses its first character, is not found in the table, and the hash falls back to the generic map.
- TagProperties.RegisteredTag: proved for the start-anchored test, with the same exception as TagDispatch, so as written the block of such a registered tag is never called.
- Aliasing of the decoder table: `initialize` keeps the caller's `:decoders` Hash object itself, so `register` also writes into that Hash and into every other Decoder built from it. The model's table is a value held by one Decoder, so this sharing is not captured.
- Keys other than Strings: `register` accepts any key, and the tag check looks the decoded key up as it is, so a key such as a Symbol could make a hash like `{"~:foo" => v}` a tag. The model's keys are strings and only a decoded String selects an entry (TableLookup).
- Values.Node: a `Hsh` node is a sequence of entries, which could hold the same raw key twice where no parsed Ruby Hash does; the model takes the number of entries as `hash.size`, which is right for every node a parser produces.
- `RES` is defined in the model but unused, as it is in the decoder.
- No recursion-depth limit is modelled, because the code has none.

## Findings

| source | as written | input that shows it | evidently intended | confidence | as-written member | corrected member |
|---|---|---|---|---|---|---|
| lib/transit/decoder.rb:74-78 | `IS_ESCAPED` is built with `^`, which in Ruby matches at the start of every line, so `=~` finds ESC followed by ESC or SUB after any newline and `str[1..-1]` drops the first character | `"a\n~~b"`, which escaping leaves alone, parses to `"\n~~b"`; the keyword string `"~:a\n~~b"` parses to the plain string `":a\n~~b"` (MultilineKeywordMisfires) | the test anchored at the start of the string (`\A`), so the string comes back as it was | not executed | ParseProperties.MultilineEscapeMisfires | ParseProperties.EscapeRoundTrip |
