/**
 * What decoding does to the rolling cache: every decode call only appends
 * registrations to the history it was given, and each appended string was
 * cacheable at the moment it was registered.  Nothing is ever forgotten or
 * registered out of turn, whatever the shape of the document.
 */
module HistoryProperties {
  import opened Values
  import opened RollingCache
  import opened DecodeSpec

  lemma {:induction false} DecodeRegistersCacheable(t: DecoderTable, rules: Rules, h: History, n: Node, asMapKey: bool)
    requires PrefixSafe(t)
    ensures AppendsCacheable(rules, h, Decode(t, rules, h, n, asMapKey).history)
    decreases n, 3
  {
    match n
    case Str(s) =>
      if rules.cacheable(h, s, asMapKey) {
        AppendsOne(rules, h, s, asMapKey);
      } else {
        assert h[..|h|] == h;
      }
    case Hsh(_) => HashRegistersCacheable(t, rules, h, n, asMapKey);
    case Arr(_) => ItemsRegisterCacheable(t, rules, h, n, 0, [], asMapKey);
    case Lit(_) => assert h[..|h|] == h;
  }

  lemma {:induction false} ItemsRegisterCacheable(t: DecoderTable, rules: Rules, h: History, n: Node, i: nat, acc: seq<Value>, asMapKey: bool)
    requires PrefixSafe(t) && n.Arr? && i <= |n.items|
    ensures AppendsCacheable(rules, h, DecodeItems(t, rules, h, n, i, acc, asMapKey).history)
    decreases n, 1, |n.items| - i
  {
    if i == |n.items| {
      assert h[..|h|] == h;
    } else {
      var d := Decode(t, rules, h, n.items[i], asMapKey);
      DecodeRegistersCacheable(t, rules, h, n.items[i], asMapKey);
      if d.value.Ok? {
        ItemsRegisterCacheable(t, rules, d.history, n, i + 1, acc + [d.value.value], asMapKey);
        AppendsCacheableTrans(rules, h, d.history, DecodeItems(t, rules, d.history, n, i + 1, acc + [d.value.value], asMapKey).history);
      }
    }
  }

  lemma {:induction false} FindRegistersCacheable(t: DecoderTable, rules: Rules, h: History, n: Node)
    requires PrefixSafe(t) && n.Hsh?
    ensures AppendsCacheable(rules, h, FindEncodedHashDecoder(t, rules, h, n).history)
    decreases n, 1
  {
    if |n.entries| != 1 {
      assert h[..|h|] == h;
    } else {
      DecodeRegistersCacheable(t, rules, h, n.entries[0].0, true);
    }
  }

  lemma {:induction false} HashRegistersCacheable(t: DecoderTable, rules: Rules, h: History, n: Node, asMapKey: bool)
    requires PrefixSafe(t) && n.Hsh?
    ensures AppendsCacheable(rules, h, DecodeHash(t, rules, h, n, asMapKey).history)
    decreases n, 2
  {
    var found := FindEncodedHashDecoder(t, rules, h, n);
    FindRegistersCacheable(t, rules, h, n);
    match found.decoder
    case Err(_) =>
    case Ok(Some(fn)) =>
      CallRegistersCacheable(t, rules, found.history, fn, n.entries[0].1, asMapKey);
      AppendsCacheableTrans(rules, h, found.history, CallDecoder(t, rules, found.history, fn, n.entries[0].1, asMapKey).history);
    case Ok(None) =>
      EntriesRegisterCacheable(t, rules, found.history, n, 0, []);
      AppendsCacheableTrans(rules, h, found.history, DecodeEntries(t, rules, found.history, n, 0, []).history);
  }

  lemma {:induction false} EntriesRegisterCacheable(t: DecoderTable, rules: Rules, h: History, n: Node, i: nat, acc: Pairs)
    requires PrefixSafe(t) && n.Hsh? && i <= |n.entries|
    ensures AppendsCacheable(rules, h, DecodeEntries(t, rules, h, n, i, acc).history)
    decreases n, 1, |n.entries| - i
  {
    if i == |n.entries| {
      assert h[..|h|] == h;
    } else {
      var k := Decode(t, rules, h, n.entries[i].0, true);
      DecodeRegistersCacheable(t, rules, h, n.entries[i].0, true);
      if k.value.Ok? {
        EntryValueRegistersCacheable(t, rules, k.history, n, i, acc, k.value.value);
        AppendsCacheableTrans(rules, h, k.history, DecodeEntries(t, rules, h, n, i, acc).history);
      }
    }
  }

  /** The rest of one entry of the `reduce`, once its key has decoded to `key`. */
  lemma {:induction false} EntryValueRegistersCacheable(t: DecoderTable, rules: Rules, h: History, n: Node, i: nat, acc: Pairs, key: Value)
    requires PrefixSafe(t) && n.Hsh? && i < |n.entries|
    ensures var v := Decode(t, rules, h, n.entries[i].1, false);
            AppendsCacheable(rules, h, if v.value.Err? then v.history
                                       else DecodeEntries(t, rules, v.history, n, i + 1, Store(acc, key, v.value.value)).history)
    decreases n, 1, |n.entries| - i, 0
  {
    var v := Decode(t, rules, h, n.entries[i].1, false);
    DecodeRegistersCacheable(t, rules, h, n.entries[i].1, false);
    if v.value.Ok? {
      var acc' := Store(acc, key, v.value.value);
      EntriesRegisterCacheable(t, rules, v.history, n, i + 1, acc');
      AppendsCacheableTrans(rules, h, v.history, DecodeEntries(t, rules, v.history, n, i + 1, acc').history);
    }
  }

  lemma {:induction false} CallRegistersCacheable(t: DecoderTable, rules: Rules, h: History, fn: DecoderFn, payload: Node, asMapKey: bool)
    requires PrefixSafe(t)
    ensures AppendsCacheable(rules, h, CallDecoder(t, rules, h, fn, payload, asMapKey).history)
    decreases payload, 5
  {
    match fn
    case ScalarFn(_) => assert h[..|h|] == h;
    case BlockFn(_) => assert h[..|h|] == h;
    case _ => DecodeRegistersCacheable(t, rules, h, payload, asMapKey);
  }
}
