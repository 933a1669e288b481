/** A Python dictionary: a finite map together with the order its keys were first inserted in.
    Assigning to a present key keeps its place; deleting and re-inserting moves it to the end. */
module OrderedDicts {

  import opened Basics

  datatype Dict<K(==), V> = Dict(keys: seq<K>, at: map<K, V>) {

    /** The key list and the map describe the same dictionary. */
    ghost predicate Wf() {
      && (forall k :: k in keys ==> k in at)
      && (forall k :: k in at ==> k in keys)
      && (forall i, j :: 0 <= i < j < |keys| ==> keys[i] != keys[j])
    }

    function Put(k: K, v: V): (d: Dict<K, V>)
      ensures Wf() ==> d.Wf()
      ensures d.at == at[k := v]
    {
      if k in at then Dict(keys, at[k := v]) else Dict(keys + [k], at[k := v])
    }

    function Delete(k: K): (d: Dict<K, V>)
      ensures Wf() ==> d.Wf()
      ensures d.at == at - {k}
    {
      DeleteKeeps(k);
      Dict(Without(keys, k), at - {k})
    }

    lemma DeleteKeeps(k: K)
      ensures Wf() ==> Dict(Without(keys, k), at - {k}).Wf()
    {
      WithoutMembers(keys, k);
      if Wf() {
        WithoutDistinct(keys, k);
      }
    }
  }

  function Empty<K, V>(): Dict<K, V> {
    Dict([], map[])
  }

  /** The list with every occurrence of one key taken out. */
  function Without<K(==)>(keys: seq<K>, k: K): seq<K> {
    if keys == [] then []
    else if keys[0] == k then Without(keys[1..], k)
    else [keys[0]] + Without(keys[1..], k)
  }

  lemma {:induction false} WithoutMembers<K>(keys: seq<K>, k: K)
    ensures forall x :: x in Without(keys, k) ==> x in keys && x != k
    ensures forall x :: x in keys && x != k ==> x in Without(keys, k)
  {
    if keys != [] {
      WithoutMembers(keys[1..], k);
      assert keys == [keys[0]] + keys[1..];
    }
  }

  lemma {:induction false} WithoutDistinct<K>(keys: seq<K>, k: K)
    requires forall i, j :: 0 <= i < j < |keys| ==> keys[i] != keys[j]
    ensures forall i, j :: 0 <= i < j < |Without(keys, k)| ==> Without(keys, k)[i] != Without(keys, k)[j]
  {
    if keys != [] {
      WithoutDistinct(keys[1..], k);
      WithoutMembers(keys[1..], k);
      assert keys[0] !in keys[1..];
    }
  }

  ghost predicate Distinct<K>(keys: seq<K>) {
    forall i, j :: 0 <= i < j < |keys| ==> keys[i] != keys[j]
  }

  /** The keys, in insertion order from position `from`, whose values satisfy `test`. */
  function KeysFrom<K(==), V>(d: Dict<K, V>, test: V -> bool, from: nat): seq<K>
    requires d.Wf() && from <= |d.keys|
    decreases |d.keys| - from
  {
    if from == |d.keys| then []
    else (if test(d.at[d.keys[from]]) then [d.keys[from]] else []) + KeysFrom(d, test, from + 1)
  }

  lemma {:induction false} KeysFromExact<K, V>(d: Dict<K, V>, test: V -> bool, from: nat)
    requires d.Wf() && from <= |d.keys|
    ensures Distinct(KeysFrom(d, test, from))
    ensures forall x :: x in KeysFrom(d, test, from) <==> x in d.keys[from..] && test(d.at[x])
    decreases |d.keys| - from
  {
    if from < |d.keys| {
      KeysFromExact(d, test, from + 1);
      assert d.keys[from..] == [d.keys[from]] + d.keys[from + 1..];
      assert d.keys[from] !in d.keys[from + 1..];
    }
  }

  /** Every key whose value satisfies the test, once each. */
  lemma KeysExact<K, V>(d: Dict<K, V>, test: V -> bool)
    requires d.Wf()
    ensures Distinct(KeysFrom(d, test, 0))
    ensures forall x :: x in KeysFrom(d, test, 0) <==> x in d.at && test(d.at[x])
  {
    KeysFromExact(d, test, 0);
    assert d.keys[0..] == d.keys;
  }

  /** The first key, in insertion order from position `from`, whose value satisfies `test`. */
  function FirstKey<K(==), V>(d: Dict<K, V>, test: V -> bool, from: nat): (r: Option<K>)
    requires d.Wf() && from <= |d.keys|
    ensures r.None? ==> forall j :: from <= j < |d.keys| ==> !test(d.at[d.keys[j]])
    ensures r.Some? ==> r.value in d.at && test(d.at[r.value])
    ensures r.Some? ==> exists j :: from <= j < |d.keys| && d.keys[j] == r.value &&
                                    forall i :: from <= i < j ==> !test(d.at[d.keys[i]])
    decreases |d.keys| - from
  {
    if from == |d.keys| then None
    else if test(d.at[d.keys[from]]) then Some(d.keys[from])
    else FirstKey(d, test, from + 1)
  }
}
