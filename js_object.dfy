/**
 * Plain JavaScript objects with string values, as the parsers produce
 * them: an ordered list of (key, value) entries, in insertion order.
 * Reading a key that is absent yields "" here: `undefined` and `""` are
 * both falsy, and every use in the backend only tests truthiness or
 * falls back to "".
 */
module JsObject {
  type Obj = seq<(string, string)>

  /** `Object.keys(o)` */
  function Keys(o: Obj): (ks: seq<string>)
    ensures |ks| == |o|
    ensures forall i {:trigger ks[i]} :: 0 <= i < |o| ==> ks[i] == o[i].0
  {
    if o == [] then [] else [o[0].0] + Keys(o[1..])
  }

  predicate Distinct(ks: seq<string>)
  {
    forall i, j :: 0 <= i < j < |ks| ==> ks[i] != ks[j]
  }

  /** `o[k]`, with `undefined` read as "". */
  function Get(o: Obj, k: string): (v: string)
    ensures k !in Keys(o) ==> v == ""
    ensures forall i :: 0 <= i < |o| && o[i].0 == k && (forall j :: 0 <= j < i ==> o[j].0 != k) ==> v == o[i].1
  {
    if o == [] then ""
    else if o[0].0 == k then o[0].1
    else
      var v := Get(o[1..], k);
      assert forall i :: 1 <= i < |o| ==> o[1..][i - 1] == o[i];
      v
  }

  /** The assignment `o[k] = v`: an existing key keeps its place, a new key goes last. */
  function Put(o: Obj, k: string, v: string): (r: Obj)
    ensures Keys(r) == if k in Keys(o) then Keys(o) else Keys(o) + [k]
    ensures Distinct(Keys(o)) ==> Distinct(Keys(r))
    ensures Get(r, k) == v
    ensures forall k' :: k' != k ==> Get(r, k') == Get(o, k')
  {
    if o == [] then [(k, v)]
    else if o[0].0 == k then
      var r := [(k, v)] + o[1..];
      PutHead(o, k, v, r);
      r
    else
      var r' := Put(o[1..], k, v);
      PutTailKeys(o, k, Keys(o[1..]), Keys(r'), r');
      PutTailGet(o, k, v, r');
      [o[0]] + r'
  }

  /** `Keys` of an object with one more entry in front. */
  lemma KeysCons(e: (string, string), rest: Obj)
    ensures Keys([e] + rest) == [e.0] + Keys(rest)
  {
    assert ([e] + rest)[1..] == rest;
  }

  lemma DistinctCons(x: string, ks: seq<string>)
    ensures Distinct([x] + ks) <==> x !in ks && Distinct(ks)
  {
    var s := [x] + ks;
    if x !in ks && Distinct(ks) {
      forall i, j | 0 <= i < j < |s|
        ensures s[i] != s[j]
      {
        assert s[j] == ks[j - 1];
        if i > 0 {
          assert s[i] == ks[i - 1];
        }
      }
    }
    if Distinct(s) {
      forall i, j | 0 <= i < j < |ks|
        ensures ks[i] != ks[j]
      {
        assert ks[i] == s[i + 1] && ks[j] == s[j + 1];
      }
      assert x !in ks by {
        forall i | 0 <= i < |ks|
          ensures ks[i] != x
        {
          assert ks[i] == s[i + 1] && x == s[0];
        }
      }
    }
  }

  /** Assigning the first key replaces its value in place. */
  lemma PutHead(o: Obj, k: string, v: string, r: Obj)
    requires o != [] && o[0].0 == k && r == [(k, v)] + o[1..]
    ensures Keys(r) == Keys(o)
    ensures Distinct(Keys(o)) ==> Distinct(Keys(r))
    ensures Get(r, k) == v
    ensures forall k' :: k' != k ==> Get(r, k') == Get(o, k')
  {
    KeysCons((k, v), o[1..]);
    KeysCons(o[0], o[1..]);
    assert o == [o[0]] + o[1..];
    GetCons((k, v), o[1..], k);
    forall k' | k' != k
      ensures Get(r, k') == Get(o, k')
    {
      GetCons((k, v), o[1..], k');
      GetCons(o[0], o[1..], k');
    }
  }

  /** Assigning a key other than the first leaves the first entry in front: reading keys. */
  lemma PutTailGet(o: Obj, k: string, v: string, r': Obj)
    requires o != [] && o[0].0 != k
    requires Get(r', k) == v
    requires forall k' :: k' != k ==> Get(r', k') == Get(o[1..], k')
    ensures Get([o[0]] + r', k) == v
    ensures forall k' :: k' != k ==> Get([o[0]] + r', k') == Get(o, k')
  {
    GetCons(o[0], r', k);
    forall k' | k' != k
      ensures Get([o[0]] + r', k') == Get(o, k')
    {
      GetCons(o[0], r', k');
      GetCons(o[0], o[1..], k');
      assert o == [o[0]] + o[1..];
    }
  }

  /** Assigning a key other than the first leaves the first entry in front: the key list. */
  lemma PutTailKeys(o: Obj, k: string, restKeys: seq<string>, newKeys: seq<string>, r': Obj)
    requires o != [] && o[0].0 != k
    requires restKeys == Keys(o[1..]) && newKeys == Keys(r')
    requires newKeys == if k in restKeys then restKeys else restKeys + [k]
    requires Distinct(restKeys) ==> Distinct(newKeys)
    ensures Keys([o[0]] + r') == if k in Keys(o) then Keys(o) else Keys(o) + [k]
    ensures Distinct(Keys(o)) ==> Distinct(Keys([o[0]] + r'))
  {
    var x := o[0].0;
    KeysCons(o[0], o[1..]);
    assert o == [o[0]] + o[1..];
    KeysCons(o[0], r');
    assert Keys(o) == [x] + restKeys;
    assert Keys([o[0]] + r') == [x] + newKeys;
    ConsKeysStep(x, k, restKeys, newKeys);
  }

  /** The key list bookkeeping of `PutTail`, on plain sequences. */
  lemma ConsKeysStep(x: string, k: string, restKeys: seq<string>, newKeys: seq<string>)
    requires x != k
    requires newKeys == if k in restKeys then restKeys else restKeys + [k]
    requires Distinct(restKeys) ==> Distinct(newKeys)
    ensures [x] + newKeys == if k in [x] + restKeys then [x] + restKeys else [x] + restKeys + [k]
    ensures Distinct([x] + restKeys) ==> Distinct([x] + newKeys)
  {
    assert k in [x] + restKeys <==> k in restKeys;
    if k !in restKeys {
      assert [x] + (restKeys + [k]) == [x] + restKeys + [k];
    }
    if Distinct([x] + restKeys) {
      DistinctCons(x, restKeys);
      DistinctCons(x, newKeys);
      assert x !in newKeys;
    }
  }

  /** The object built by assigning the pairs one after the other, as a CSV reader builds a row. */
  function FromPairs(ps: seq<(string, string)>): (r: Obj)
    ensures Distinct(Keys(r))
    ensures forall k :: k in Keys(r) <==> k in Keys(ps)
  {
    if ps == [] then []
    else
      var init := FromPairs(ps[..|ps| - 1]);
      var last := ps[|ps| - 1];
      KeysSnoc(ps);
      Put(init, last.0, last.1)
  }

  lemma KeysSnoc(o: Obj)
    requires o != []
    ensures Keys(o) == Keys(o[..|o| - 1]) + [o[|o| - 1].0]
  {
    var front := o[..|o| - 1];
    assert forall i :: 0 <= i < |front| ==> front[i] == o[i];
  }

  /** The value of the last pair with key `k`, or "" when there is none. */
  function LastValue(ps: seq<(string, string)>, k: string): string
  {
    if ps == [] then ""
    else if ps[|ps| - 1].0 == k then ps[|ps| - 1].1
    else LastValue(ps[..|ps| - 1], k)
  }

  /** Later assignments to the same key overwrite earlier ones. */
  lemma {:induction false} FromPairsGet(ps: seq<(string, string)>, k: string)
    ensures Get(FromPairs(ps), k) == LastValue(ps, k)
  {
    if ps != [] {
      FromPairsGet(ps[..|ps| - 1], k);
    }
  }

  /**
   * The JavaScript chain `o[k0] || o[k1] || ... || ''`: the value of the
   * first listed key whose value is non-empty, else "".
   */
  function FieldOr(o: Obj, keys: seq<string>): (r: string)
    ensures r == "" <==> forall i :: 0 <= i < |keys| ==> Get(o, keys[i]) == ""
    ensures r != "" ==> exists i :: 0 <= i < |keys| && Get(o, keys[i]) == r
                                    && forall j :: 0 <= j < i ==> Get(o, keys[j]) == ""
  {
    if keys == [] then ""
    else if Get(o, keys[0]) != "" then Get(o, keys[0])
    else
      var r := FieldOr(o, keys[1..]);
      FieldOrShift(o, keys, r);
      r
  }

  /** A chain whose first key is empty yields what the chain over the remaining keys yields. */
  lemma FieldOrShift(o: Obj, keys: seq<string>, r: string)
    requires keys != [] && Get(o, keys[0]) == ""
    requires r == "" <==> forall i :: 0 <= i < |keys| - 1 ==> Get(o, keys[1..][i]) == ""
    requires r != "" ==> exists i :: 0 <= i < |keys| - 1 && Get(o, keys[1..][i]) == r
                                     && forall j :: 0 <= j < i ==> Get(o, keys[1..][j]) == ""
    ensures r == "" <==> forall i :: 0 <= i < |keys| ==> Get(o, keys[i]) == ""
    ensures r != "" ==> exists i :: 0 <= i < |keys| && Get(o, keys[i]) == r
                                    && forall j :: 0 <= j < i ==> Get(o, keys[j]) == ""
  {
    var tail := keys[1..];
    assert forall i :: 1 <= i < |keys| ==> tail[i - 1] == keys[i];
    if r != "" {
      var i' :| 0 <= i' < |tail| && Get(o, tail[i']) == r
                && forall j :: 0 <= j < i' ==> Get(o, tail[j]) == "";
      assert Get(o, keys[i' + 1]) == r;
    }
  }

  /**
   * `v` is what the chain over `keys` yields: the value of the first key
   * with a non-empty value, or "" when every listed key is empty or absent.
   */
  predicate IsFirstTruthy(o: Obj, keys: seq<string>, v: string)
  {
    if v == "" then forall i :: 0 <= i < |keys| ==> Get(o, keys[i]) == ""
    else exists i :: 0 <= i < |keys| && Get(o, keys[i]) == v && forall j :: 0 <= j < i ==> Get(o, keys[j]) == ""
  }

  /** The chain stops at the first non-empty value. */
  lemma FieldOrAt(o: Obj, keys: seq<string>, i: nat)
    requires i < |keys| && Get(o, keys[i]) != ""
    requires forall j :: 0 <= j < i ==> Get(o, keys[j]) == ""
    ensures FieldOr(o, keys) == Get(o, keys[i])
  {
  }

  /** When only the first listed key can hold a value, the chain reads that key. */
  lemma FieldOrOnlyFirst(o: Obj, keys: seq<string>)
    requires keys != []
    requires forall i :: 1 <= i < |keys| ==> Get(o, keys[i]) == ""
    ensures FieldOr(o, keys) == Get(o, keys[0])
  {
    if Get(o, keys[0]) != "" {
      FieldOrAt(o, keys, 0);
    }
  }

  /** When the first listed key is empty and only the second can hold a value, the chain reads the second. */
  lemma FieldOrSecondOnly(o: Obj, keys: seq<string>)
    requires |keys| >= 2 && Get(o, keys[0]) == ""
    requires forall i :: 2 <= i < |keys| ==> Get(o, keys[i]) == ""
    ensures FieldOr(o, keys) == Get(o, keys[1])
  {
    if Get(o, keys[1]) != "" {
      FieldOrAt(o, keys, 1);
    }
  }

  /** Reading a key of a three-entry object: the first entry with that key wins. */
  lemma GetOfThree(k0: string, v0: string, k1: string, v1: string, k2: string, v2: string, k: string)
    ensures Get([(k0, v0), (k1, v1), (k2, v2)], k)
            == if k == k0 then v0 else if k == k1 then v1 else if k == k2 then v2 else ""
  {
    GetCons((k0, v0), [(k1, v1), (k2, v2)], k);
    GetCons((k1, v1), [(k2, v2)], k);
    GetCons((k2, v2), [], k);
  }

  /** Reading a key of a one-entry object. */
  lemma GetOfOne(k0: string, v0: string, k: string)
    ensures Get([(k0, v0)], k) == if k == k0 then v0 else ""
  {
    GetCons((k0, v0), [], k);
  }

  lemma GetCons(e: (string, string), rest: Obj, k: string)
    ensures Get([e] + rest, k) == if e.0 == k then e.1 else Get(rest, k)
  {
    assert ([e] + rest)[1..] == rest;
  }
}
