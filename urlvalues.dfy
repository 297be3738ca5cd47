/** Go's `url.Values`: a map from a key to its list of values, with `Set`
    and `Encode`. Percent-escaping is a parameter `esc` standing for
    `url.QueryEscape`; `Escaping(esc)` names the two facts about it the
    model relies on. */
module UrlValues {
  import opened Text

  type Values = map<string, seq<string>>

  /** `v.Set(key, value)`: the key's list becomes exactly `[value]`. */
  function Set(v: Values, key: string, value: string): (r: Values)
    ensures key in r && r[key] == [value]
    ensures forall k :: k != key ==> (k in r <==> k in v) && (k in v ==> r[k] == v[k])
  {
    v[key := [value]]
  }

  /** One encoded pair. */
  function Pair(esc: string -> string, key: string, value: string): string
  {
    esc(key) + "=" + esc(value)
  }

  /** The pairs of one key, one per value, in order. */
  function KeyPairs(v: Values, k: string, esc: string -> string): (r: seq<string>)
    requires k in v
    ensures |r| == |v[k]|
    ensures forall i :: 0 <= i < |r| ==> r[i] == Pair(esc, k, v[k][i])
  {
    seq(|v[k]|, i requires 0 <= i < |v[k]| => Pair(esc, k, v[k][i]))
  }

  /** The pairs for the keys in `keys`, key by key, each key's values in order. */
  function Pairs(v: Values, keys: seq<string>, esc: string -> string): seq<string>
    requires forall k :: k in keys ==> k in v
  {
    if keys == [] then []
    else
      var k := keys[|keys| - 1];
      Pairs(v, keys[..|keys| - 1], esc) + KeyPairs(v, k, esc)
  }

  /** `v.Encode()`: the pairs of the keys in sorted order, joined by `&`; a
      key with no values contributes nothing. */
  function Encode(v: Values, esc: string -> string): string
  {
    Join(Pairs(v, SortedKeys(v.Keys), esc), '&')
  }

  /** `url.QueryEscape` is injective and escapes both `=` and `&`. */
  ghost predicate Escaping(esc: string -> string)
  {
    (forall a, b :: esc(a) == esc(b) ==> a == b)
    && (forall s :: '=' !in esc(s) && '&' !in esc(s))
  }

  /** Every pair of the encoding belongs to a value of one of the keys. */
  lemma {:induction false} PairsSound(v: Values, keys: seq<string>, esc: string -> string, p: string)
    returns (k: string, i: nat)
    requires forall k :: k in keys ==> k in v
    requires p in Pairs(v, keys, esc)
    ensures k in keys && i < |v[k]| && p == Pair(esc, k, v[k][i])
    decreases |keys|
  {
    var n := |keys|;
    var init := keys[..n - 1];
    var tail := KeyPairs(v, keys[n - 1], esc);
    if p in tail {
      var j :| 0 <= j < |tail| && tail[j] == p;
      k, i := keys[n - 1], j;
    } else {
      k, i := PairsSound(v, init, esc, p);
    }
  }

  /** Every value of every key has its pair in the encoding. */
  lemma {:induction false} PairsComplete(v: Values, keys: seq<string>, esc: string -> string, k: string, i: nat)
    requires forall k :: k in keys ==> k in v
    requires k in keys && i < |v[k]|
    ensures Pair(esc, k, v[k][i]) in Pairs(v, keys, esc)
    decreases |keys|
  {
    var n := |keys|;
    if k == keys[n - 1] {
      assert KeyPairs(v, k, esc)[i] == Pair(esc, k, v[k][i]);
    } else {
      PairsComplete(v, keys[..n - 1], esc, k, i);
    }
  }

  /** A pair decodes back to its key and value. */
  lemma PairInjective(esc: string -> string, k: string, x: string, k': string, x': string)
    requires Escaping(esc)
    requires Pair(esc, k, x) == Pair(esc, k', x')
    ensures k == k' && x == x'
  {
    var p := Pair(esc, k, x);
    FirstEquals(esc(k), esc(x));
    FirstEquals(esc(k'), esc(x'));
    assert esc(k) == p[..|esc(k)|] == esc(k');
    assert esc(x) == p[|esc(k)| + 1..] == esc(x');
  }

  /** In `a + "=" + b` with no `=` in `a`, the first `=` follows `a`. */
  lemma FirstEquals(a: string, b: string)
    requires '=' !in a
    ensures IndexOf(a + "=" + b, '=') == |a|
    ensures (a + "=" + b)[..|a|] == a && (a + "=" + b)[|a| + 1..] == b
  {
    var s := a + "=" + b;
    assert s[|a|] == '=';
    assert forall k :: 0 <= k < |a| ==> s[k] == a[k];
  }

  /** The encoded query lists, as its `&`-separated parts, exactly the pairs
      of the map: `key=value` is a part if and only if `value` is among the
      key's values. */
  lemma EncodedParam(v: Values, esc: string -> string, key: string, value: string)
    requires Escaping(esc)
    ensures Pair(esc, key, value) in Split(Encode(v, esc), '&') <==> key in v && value in v[key]
  {
    var keys := SortedKeys(v.Keys);
    var ps := Pairs(v, keys, esc);
    var p := Pair(esc, key, value);
    if ps == [] {
      assert Split(Encode(v, esc), '&') == [""];
      assert |p| > 0;
    } else {
      forall j | 0 <= j < |ps| ensures '&' !in ps[j] {
        var k, i := PairsSound(v, keys, esc, ps[j]);
        assert '&' !in esc(k) && '&' !in esc(v[k][i]);
      }
      SplitJoin(ps, '&');
    }
    if p in ps {
      var k, i := PairsSound(v, keys, esc, p);
      PairInjective(esc, key, value, k, v[k][i]);
    }
    if key in v && value in v[key] {
      var i :| 0 <= i < |v[key]| && v[key][i] == value;
      PairsComplete(v, keys, esc, key, i);
    }
  }
}
