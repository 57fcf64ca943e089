/** JavaScript's Map as the agent uses it: entries in the order their keys were first set. */
module OrderedMap {
  import opened Text

  type Entries<V> = seq<(string, V)>

  predicate HasKey<V>(m: Entries<V>, k: string) { exists i :: 0 <= i < |m| && m[i].0 == k }

  function Put<V>(m: Entries<V>, k: string, v: V): Entries<V> {
    if m == [] then [(k, v)]
    else if m[0].0 == k then [(k, v)] + m[1..]
    else [m[0]] + Put(m[1..], k, v)
  }

  function Get<V>(m: Entries<V>, k: string): Option<V> {
    if m == [] then None else if m[0].0 == k then Some(m[0].1) else Get(m[1..], k)
  }

  ghost predicate DistinctKeys<V>(m: Entries<V>) { forall i, j :: 0 <= i < j < |m| ==> m[i].0 != m[j].0 }

  lemma {:induction false} PutNew<V>(m: Entries<V>, k: string, v: V)
    requires !HasKey(m, k)
    ensures Put(m, k, v) == m + [(k, v)]
  {
    if m != [] {
      assert m[0].0 != k;
      PutNew(m[1..], k, v);
    }
  }

  lemma {:induction false} LastEntry<V>(m: Entries<V>, k: string, v: V, w: V)
    requires !HasKey(m, k)
    ensures Get(m + [(k, v)], k) == Some(v)
    ensures Put(m + [(k, v)], k, w) == m + [(k, w)]
  {
    if m != [] {
      assert m[0].0 != k;
      LastEntry(m[1..], k, v, w);
      assert (m + [(k, v)])[1..] == m[1..] + [(k, v)];
    }
  }

  lemma {:induction false} PutSame<V>(m: Entries<V>, k: string, v: V)
    requires Get(m, k) == Some(v)
    ensures Put(m, k, v) == m
  {
    if m[0].0 != k {
      PutSame(m[1..], k, v);
    }
  }

  lemma {:induction false} PutEntries<V>(m: Entries<V>, k: string, v: V)
    ensures forall e :: e in Put(m, k, v) ==> e == (k, v) || e in m
  {
    if m != [] {
      PutEntries(m[1..], k, v);
    }
  }

  lemma {:induction false} GetEntry<V>(m: Entries<V>, k: string)
    ensures Get(m, k).Some? ==> (k, Get(m, k).value) in m
  {
    if m != [] {
      GetEntry(m[1..], k);
    }
  }

  lemma {:induction false} PutGet<V>(m: Entries<V>, k: string, v: V, other: string)
    ensures Get(Put(m, k, v), other) == if other == k then Some(v) else Get(m, other)
  {
    if m != [] {
      PutGet(m[1..], k, v, other);
    }
  }

  function Keys<V>(m: Entries<V>): (r: seq<string>)
    ensures |r| == |m|
  {
    seq(|m|, i requires 0 <= i < |m| => m[i].0)
  }

  /** A key keeps its place; a new one comes last. */
  lemma {:induction false} PutKeepsPlaces<V>(m: Entries<V>, k: string, v: V)
    ensures Keys(Put(m, k, v)) == if HasKey(m, k) then Keys(m) else Keys(m) + [k]
  {
    if m != [] && m[0].0 != k {
      PutKeepsPlaces(m[1..], k, v);
      HasKeyRest(m, k);
      KeysFirst(m[0], m[1..]);
      KeysFirst(m[0], Put(m[1..], k, v));
      assert m == [m[0]] + m[1..];
    } else if m != [] {
      assert HasKey(m, k);
    }
  }

  lemma HasKeyRest<V>(m: Entries<V>, k: string)
    requires m != [] && m[0].0 != k
    ensures HasKey(m, k) <==> HasKey(m[1..], k)
  {
    if i :| 0 <= i < |m| && m[i].0 == k {
      assert m[1..][i - 1].0 == k;
    }
    if i :| 0 <= i < |m[1..]| && m[1..][i].0 == k {
      assert m[i + 1].0 == k;
    }
  }

  lemma KeysFirst<V>(e: (string, V), rest: Entries<V>)
    ensures Keys([e] + rest) == [e.0] + Keys(rest)
  {}

  lemma {:induction false} PutDistinct<V>(m: Entries<V>, k: string, v: V)
    requires DistinctKeys(m)
    ensures DistinctKeys(Put(m, k, v))
  {
    if m != [] && m[0].0 != k {
      PutDistinct(m[1..], k, v);
      PutEntries(m[1..], k, v);
      var rest := Put(m[1..], k, v);
      forall j | 0 <= j < |rest| ensures rest[j].0 != m[0].0 {
        assert rest[j] in rest;
      }
    }
  }
}
