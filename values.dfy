/**
 * The two trees the decoder works between: the generic node produced by the
 * JSON or msgpack parser, and the Transit value it is turned into.  The
 * generic map of a decoded hash is an insertion-ordered sequence of pairs
 * built with the semantics of Ruby's Hash#store.
 */
module Values {
  import opened Wrappers

  /** Numbers, booleans and null: passed through by the decoder. */
  datatype Atom = Number(n: int) | Boolean(b: bool) | Null

  /** A node of the parsed document: a String, an Array, a Hash (entries in iteration order) or an atom. */
  datatype Node =
    | Str(s: string)
    | Arr(items: seq<Node>)
    | Hsh(entries: seq<(Node, Node)>)
    | Lit(atom: Atom)

  /** The scalar kinds whose payload is handed to a parser outside the decoder. */
  datatype ScalarKind = Keyword | ByteArray | Float | BigDecimal | Char | TransitSymbol | Instant | Uuid | Uri

  /** A decoded Transit value. */
  datatype Value =
    | VStr(s: string)
    | VArr(items: seq<Value>)
    | VMap(entries: Pairs)
    | VLit(atom: Atom)
      /** What the external parser of `kind` makes of `payload` (`s.to_sym`, `Float(s)`, `UUID.new(s)`, ...). */
    | Scalar(kind: ScalarKind, payload: Node)
      /** `Set.new` of a decoded collection. */
    | SetOf(members: set<Value>)
      /** `TransitList.new` of a decoded value. */
    | ListOf(inner: Value)
      /** `TypedArray.new(kind, ...)` of a decoded value. */
    | TypedArray(elementKind: string, inner: Value)

  /** The entries of a Ruby Hash, in insertion order. */
  type Pairs = seq<(Value, Value)>

  /** What makes a decode raise. */
  datatype DecodeError =
      /** A cache reference that the rolling cache cannot resolve. */
    | CacheMiss(token: string)
      /** `Set.new` applied to a value that has no `each`. */
    | NotEnumerable(value: Value)

  function Keys(m: Pairs): (ks: seq<Value>)
    ensures |ks| == |m|
  {
    if m == [] then [] else [m[0].0] + Keys(m[1..])
  }

  /** No key occurs twice: what every Ruby Hash satisfies. */
  predicate Distinct(ks: seq<Value>) {
    forall i, j :: 0 <= i < j < |ks| ==> ks[i] != ks[j]
  }

  /** `h[k]`: the value stored under `k`, if any. */
  function Lookup(m: Pairs, k: Value): (r: Option<Value>)
    ensures r.Some? <==> k in Keys(m)
  {
    if m == [] then None
    else if m[0].0 == k then Some(m[0].1)
    else Lookup(m[1..], k)
  }

  /**
   * `h.store(k, v)`: afterwards `k` maps to `v`, every other key keeps its
   * value, and an existing key keeps its position while a new key is appended.
   */
  function Store(m: Pairs, k: Value, v: Value): (r: Pairs)
    ensures Lookup(r, k) == Some(v)
    ensures forall k' :: k' != k ==> Lookup(r, k') == Lookup(m, k')
    ensures Keys(r) == if k in Keys(m) then Keys(m) else Keys(m) + [k]
  {
    if m == [] then [(k, v)]
    else if m[0].0 == k then [(k, v)] + m[1..]
    else [m[0]] + Store(m[1..], k, v)
  }

  /** Storing keeps a hash free of duplicate keys. */
  lemma StoreKeepsDistinct(m: Pairs, k: Value, v: Value)
    ensures Distinct(Keys(m)) ==> Distinct(Keys(Store(m, k, v)))
  {
    var ks := Keys(m);
    if k !in ks && Distinct(ks) {
      assert Keys(Store(m, k, v)) == ks + [k];
      forall i, j | 0 <= i < j < |ks| + 1
        ensures (ks + [k])[i] != (ks + [k])[j]
      {
        if j == |ks| {
          assert (ks + [k])[i] == ks[i];
        }
      }
    }
  }

  /** The `reduce` of Hash#store over `kvs`, in order, starting from `m`. */
  function StoreAll(m: Pairs, kvs: Pairs): Pairs
    decreases kvs
  {
    if kvs == [] then m else StoreAll(Store(m, kvs[0].0, kvs[0].1), kvs[1..])
  }

  /** The value paired with `k` by the last pair of `kvs` whose key is `k`. */
  function LastValue(kvs: Pairs, k: Value): Option<Value>
  {
    if kvs == [] then None
    else match LastValue(kvs[1..], k)
      case Some(v) => Some(v)
      case None => if kvs[0].0 == k then Some(kvs[0].1) else None
  }

  /** After a run of stores the latest pair for a key wins; keys never stored keep their old value. */
  lemma {:induction false} StoreAllLookup(m: Pairs, kvs: Pairs, k: Value)
    ensures Lookup(StoreAll(m, kvs), k) == if LastValue(kvs, k).Some? then LastValue(kvs, k) else Lookup(m, k)
    decreases kvs
  {
    if kvs != [] {
      StoreAllLookup(Store(m, kvs[0].0, kvs[0].1), kvs[1..], k);
    }
  }

  /** A run of stores never creates a duplicate key. */
  lemma {:induction false} StoreAllKeepsDistinct(m: Pairs, kvs: Pairs)
    requires Distinct(Keys(m))
    ensures Distinct(Keys(StoreAll(m, kvs)))
    decreases kvs
  {
    if kvs != [] {
      StoreKeepsDistinct(m, kvs[0].0, kvs[0].1);
      StoreAllKeepsDistinct(Store(m, kvs[0].0, kvs[0].1), kvs[1..]);
    }
  }
}
