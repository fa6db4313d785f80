/** Plain JavaScript objects used as string-keyed dictionaries. A `for-in` loop visits string keys
    that are not array indices in insertion order, so an object is modelled as the sequence of
    its (key, value) entries in that order. */
module JsObjects {
  import opened JsValues

  type Entries = seq<(string, Value)>

  /** The keys of an object, in enumeration order. */
  function Keys(e: Entries): (ks: seq<string>)
    ensures |ks| == |e| && forall i :: 0 <= i < |e| ==> ks[i] == e[i].0
  {
    seq(|e|, i requires 0 <= i < |e| => e[i].0)
  }

  /** No key occurs twice, as in any JavaScript object. */
  predicate UniqueKeys(e: Entries) {
    forall i, j :: 0 <= i < j < |e| ==> e[i].0 != e[j].0
  }

  /** `obj[k]`: the value stored under `k`, or `undefined` when there is none. */
  function Get(e: Entries, k: string): (v: Value)
    ensures k !in Keys(e) ==> v == Undefined
    ensures v != Undefined ==> (k, v) in e
  {
    if e == [] then Undefined else if e[0].0 == k then e[0].1 else Get(e[1..], k)
  }

  /** `obj[k] = v`: an existing key keeps its place and takes the new value; a new key goes last. */
  function Put(e: Entries, k: string, v: Value): Entries {
    if e == [] then [(k, v)]
    else if e[0].0 == k then [(k, v)] + e[1..]
    else [e[0]] + Put(e[1..], k, v)
  }

  /** After `obj[k] = v`, reading `k` gives `v` and every other key reads as before. */
  lemma {:induction false} PutGet(e: Entries, k: string, v: Value)
    ensures Get(Put(e, k, v), k) == v
    ensures forall k' :: k' != k ==> Get(Put(e, k, v), k') == Get(e, k')
  {
    if e != [] {
      var r := Put(e, k, v);
      if e[0].0 == k {
        assert r[1..] == e[1..];
      } else {
        PutGet(e[1..], k, v);
        assert r[1..] == Put(e[1..], k, v);
      }
    }
  }

  /** Storing under a key already present keeps every key in its place. */
  lemma {:induction false} PutPresentKey(e: Entries, k: string, v: Value)
    requires k in Keys(e)
    ensures |Put(e, k, v)| == |e| && forall i :: 0 <= i < |e| ==> Put(e, k, v)[i].0 == e[i].0
  {
    var r := Put(e, k, v);
    if e[0].0 != k {
      var t := e[1..];
      assert k in Keys(t) by {
        var i :| 0 <= i < |e| && e[i].0 == k;
        assert t[i - 1].0 == k;
      }
      PutPresentKey(t, k, v);
      assert r == [e[0]] + Put(t, k, v);
      forall i | 0 <= i < |e|
        ensures r[i].0 == e[i].0
      {
        if i > 0 {
          assert r[i] == Put(t, k, v)[i - 1] && e[i] == t[i - 1];
        }
      }
    } else {
      assert r == [(k, v)] + e[1..];
    }
  }

  /** Storing under a new key appends the entry. */
  lemma PutNewKey(e: Entries, k: string, v: Value)
    requires k !in Keys(e)
    ensures Put(e, k, v) == e + [(k, v)]
  {
    forall i | 0 <= i < |e|
      ensures e[i].0 != k
    {
      assert Keys(e)[i] == e[i].0;
    }
    PutAbsentKey(e, k, v);
  }

  lemma {:induction false} PutAbsentKey(e: Entries, k: string, v: Value)
    requires forall i :: 0 <= i < |e| ==> e[i].0 != k
    ensures Put(e, k, v) == e + [(k, v)]
  {
    if e != [] {
      var t := e[1..];
      assert e[0].0 != k;
      assert Put(e, k, v) == [e[0]] + Put(t, k, v);
      assert forall i :: 0 <= i < |t| ==> t[i].0 != k by {
        forall i | 0 <= i < |t|
          ensures t[i].0 != k
        {
          assert t[i] == e[i + 1];
        }
      }
      PutAbsentKey(t, k, v);
      assert [e[0]] + (t + [(k, v)]) == e + [(k, v)] by {
        assert e == [e[0]] + t;
      }
    }
  }

  /** Keys stay unique under `obj[k] = v`. */
  lemma PutKeepsKeysUnique(e: Entries, k: string, v: Value)
    requires UniqueKeys(e)
    ensures UniqueKeys(Put(e, k, v))
  {
    if k in Keys(e) {
      PutPresentKey(e, k, v);
    } else {
      PutNewKey(e, k, v);
    }
  }

  /** `s.indexOf(p) === 0`: `s` starts with `p`. */
  predicate HasPrefix(s: string, p: string) {
    |p| <= |s| && s[..|p|] == p
  }

  /** The entries whose key starts with `p`, in their original order. */
  function WithPrefix(e: Entries, p: string): (r: Entries)
    ensures |r| <= |e|
    ensures forall i :: 0 <= i < |r| ==> HasPrefix(r[i].0, p)
    ensures forall x :: x in r <==> x in e && HasPrefix(x.0, p)
  {
    if e == [] then []
    else
      var last := e[|e| - 1];
      WithPrefix(e[..|e| - 1], p) + (if HasPrefix(last.0, p) then [last] else [])
  }
}
