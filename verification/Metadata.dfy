/** The key/value section of a GGUF file: an insertion-ordered dictionary, the writer's
    capability fill and bulk trailer, and the audit of the layout. */
module Metadata {
  import opened Options
  import opened Sequences

  datatype Field<V> = Field(key: string, value: V)

  function Keys<V>(kv: seq<Field<V>>): (r: seq<string>)
    ensures |r| == |kv| && forall i :: 0 <= i < |kv| ==> r[i] == kv[i].key
  {
    seq(|kv|, i requires 0 <= i < |kv| => kv[i].key)
  }

  predicate Has<V>(kv: seq<Field<V>>, key: string) {
    exists i :: 0 <= i < |kv| && kv[i].key == key
  }

  /** A dictionary has each key once. */
  ghost predicate IsDict<V>(kv: seq<Field<V>>) {
    forall i, j :: 0 <= i < j < |kv| ==> kv[i].key != kv[j].key
  }

  lemma HasInFront<V>(kv: seq<Field<V>>, key: string)
    requires kv != []
    ensures Has(kv, key) <==> Has(kv[..|kv| - 1], key) || kv[|kv| - 1].key == key
  {
    var front := kv[..|kv| - 1];
    if Has(kv, key) {
      var i :| 0 <= i < |kv| && kv[i].key == key;
      if i < |front| {
        assert front[i].key == key;
      }
    }
    if Has(front, key) {
      var i :| 0 <= i < |front| && front[i].key == key;
      assert kv[i].key == key;
    }
  }

  function Find<V>(kv: seq<Field<V>>, key: string): (k: nat)
    ensures k <= |kv| && (k < |kv| <==> Has(kv, key)) && (k < |kv| ==> kv[k].key == key)
  {
    if kv == [] then 0
    else
      var k := Find(kv[..|kv| - 1], key);
      HasInFront(kv, key);
      if k < |kv| - 1 then k else if kv[|kv| - 1].key == key then |kv| - 1 else |kv|
  }

  /** Assignment: in place when the key is there, at the end when it is new. */
  function Put<V>(kv: seq<Field<V>>, key: string, value: V): seq<Field<V>> {
    if Has(kv, key) then kv[Find(kv, key) := Field(key, value)] else kv + [Field(key, value)]
  }

  lemma PutKeepsDict<V>(kv: seq<Field<V>>, key: string, value: V)
    requires IsDict(kv)
    ensures IsDict(Put(kv, key, value))
    ensures Field(key, value) in Put(kv, key, value)
    ensures forall k :: Has(Put(kv, key, value), k) <==> Has(kv, k) || k == key
    ensures forall f: Field<V> :: f.key != key ==> (f in Put(kv, key, value) <==> f in kv)
  {
    var p, i := Put(kv, key, value), Find(kv, key);
    if i < |kv| {
      assert p[i] == Field(key, value);
      assert forall j :: 0 <= j < |kv| && j != i ==> p[j] == kv[j];
    } else {
      assert p[|kv|] == Field(key, value);
      assert forall j :: 0 <= j < |kv| ==> p[j] == kv[j];
    }
    forall k ensures Has(p, k) <==> Has(kv, k) || k == key {
      if Has(kv, k) {
        var j :| 0 <= j < |kv| && kv[j].key == k;
        assert p[j].key == k;
      }
    }
  }

  function Lookup<V>(kv: seq<Field<V>>, key: string): Option<V> {
    if Has(kv, key) then Some(kv[Find(kv, key)].value) else None
  }

  /** In a dictionary a lookup finds the one field with the key. */
  lemma LookupIsField<V>(kv: seq<Field<V>>, key: string, value: V)
    requires IsDict(kv)
    ensures Lookup(kv, key) == Some(value) <==> Field(key, value) in kv
  {
    if Field(key, value) in kv {
      var i :| 0 <= i < |kv| && kv[i] == Field(key, value);
      assert kv[i].key == key;
    }
    if Lookup(kv, key) == Some(value) {
      assert kv[Find(kv, key)] == Field(key, value);
    }
  }

  /** Dictionaries with the same fields answer alike. */
  lemma SameFieldsSameLookup<V>(a: seq<Field<V>>, b: seq<Field<V>>, key: string)
    requires IsDict(a) && IsDict(b) && forall f: Field<V> :: f.key == key ==> (f in a <==> f in b)
    ensures Lookup(a, key) == Lookup(b, key)
  {
    if Lookup(a, key).Some? {
      LookupIsField(a, key, Lookup(a, key).value);
      LookupIsField(b, key, Lookup(a, key).value);
    } else if Lookup(b, key).Some? {
      LookupIsField(a, key, Lookup(b, key).value);
      LookupIsField(b, key, Lookup(b, key).value);
    }
  }

  lemma LookupAfterPut<V>(kv: seq<Field<V>>, key: string, value: V, other: string)
    requires IsDict(kv)
    ensures IsDict(Put(kv, key, value))
    ensures Lookup(Put(kv, key, value), other) == if other == key then Some(value) else Lookup(kv, other)
  {
    PutKeepsDict(kv, key, value);
    if other == key {
      LookupIsField(Put(kv, key, value), key, value);
    } else {
      SameFieldsSameLookup(Put(kv, key, value), kv, other);
    }
  }

  lemma LookupInFront<V>(kv: seq<Field<V>>, key: string)
    requires IsDict(kv) && kv != []
    ensures Lookup(kv, key) == if kv[|kv| - 1].key == key then Some(kv[|kv| - 1].value) else Lookup(kv[..|kv| - 1], key)
  {
    var front, last := kv[..|kv| - 1], kv[|kv| - 1];
    assert kv == front + [last];
    if last.key == key {
      LookupIsField(kv, key, last.value);
    } else {
      SameFieldsSameLookup(kv, front, key);
    }
  }

  // ----- Bulk keys last -----

  predicate IsBulk(bulk: seq<string>, key: string) {
    key in bulk
  }

  /** shard[key] = shard.pop(key) */
  function MoveLast<V>(kv: seq<Field<V>>, key: string): seq<Field<V>> {
    if Has(kv, key) then
      var i := Find(kv, key);
      kv[..i] + kv[i + 1..] + [kv[i]]
    else kv
  }

  function MoveBulkLast<V>(kv: seq<Field<V>>, bulk: seq<string>): seq<Field<V>> {
    if bulk == [] then kv else MoveLast(MoveBulkLast(kv, bulk[..|bulk| - 1]), bulk[|bulk| - 1])
  }

  method MoveShard<V>(kv: seq<Field<V>>, bulk: seq<string>) returns (r: seq<Field<V>>)
    ensures r == MoveBulkLast(kv, bulk)
  {
    r := kv;
    for k := 0 to |bulk|
      invariant r == MoveBulkLast(kv, bulk[..k])
    {
      assert bulk[..k + 1][..k] == bulk[..k];
      if Has(r, bulk[k]) {
        var i := Find(r, bulk[k]);
        r := r[..i] + r[i + 1..] + [r[i]];
      }
    }
    assert bulk[..|bulk|] == bulk;
  }

  /** The fields that are not bulk, in order. */
  function Scalars<V>(kv: seq<Field<V>>, bulk: seq<string>): seq<Field<V>> {
    if kv == [] then []
    else
      Scalars(kv[..|kv| - 1], bulk) + (if IsBulk(bulk, kv[|kv| - 1].key) then [] else [kv[|kv| - 1]])
  }

  /** The bulk fields, in the order of the list. */
  function Trailer<V>(kv: seq<Field<V>>, bulk: seq<string>): seq<Field<V>> {
    if bulk == [] then []
    else
      var key := bulk[|bulk| - 1];
      Trailer(kv, bulk[..|bulk| - 1]) + (if Has(kv, key) then [kv[Find(kv, key)]] else [])
  }

  lemma {:induction false} ScalarsAppend<V>(a: seq<Field<V>>, b: seq<Field<V>>, bulk: seq<string>)
    ensures Scalars(a + b, bulk) == Scalars(a, bulk) + Scalars(b, bulk)
  {
    if b == [] {
      assert a + b == a;
    } else {
      ScalarsAppend(a, b[..|b| - 1], bulk);
      assert (a + b)[..|a + b| - 1] == a + b[..|b| - 1];
    }
  }

  lemma {:induction false} ScalarsOnly<V>(kv: seq<Field<V>>, bulk: seq<string>)
    requires forall i :: 0 <= i < |kv| ==> !IsBulk(bulk, kv[i].key)
    ensures Scalars(kv, bulk) == kv
  {
    if kv != [] {
      ScalarsOnly(kv[..|kv| - 1], bulk);
    }
  }

  lemma {:induction false} ScalarsMembers<V>(kv: seq<Field<V>>, bulk: seq<string>, f: Field<V>)
    ensures f in Scalars(kv, bulk) <==> f in kv && !IsBulk(bulk, f.key)
  {
    if kv != [] {
      ScalarsMembers(kv[..|kv| - 1], bulk, f);
      assert kv == kv[..|kv| - 1] + [kv[|kv| - 1]];
    }
  }

  lemma {:induction false} TrailerMembers<V>(kv: seq<Field<V>>, bulk: seq<string>, f: Field<V>)
    requires IsDict(kv)
    ensures f in Trailer(kv, bulk) <==> f in kv && IsBulk(bulk, f.key)
  {
    if bulk != [] {
      TrailerMembers(kv, bulk[..|bulk| - 1], f);
      assert bulk == bulk[..|bulk| - 1] + [bulk[|bulk| - 1]];
      if f in kv && f.key == bulk[|bulk| - 1] {
        var i :| 0 <= i < |kv| && kv[i] == f;
        assert kv[Find(kv, f.key)].key == kv[i].key;
      }
    }
  }

  lemma ScalarsOfOne<V>(f: Field<V>, bulk: seq<string>)
    ensures Scalars([f], bulk) == if IsBulk(bulk, f.key) then [] else [f]
  {
    assert [f][..0] == [];
  }

  lemma ScalarsAppendTwice<V>(a: seq<Field<V>>, b: seq<Field<V>>, c: seq<Field<V>>, bulk: seq<string>)
    ensures Scalars(a + b + c, bulk) == Scalars(a, bulk) + Scalars(b, bulk) + Scalars(c, bulk)
  {
    ScalarsAppend(a + b, c, bulk);
    ScalarsAppend(a, b, bulk);
  }

  lemma WithoutOne<V>(a: seq<Field<V>>, f: Field<V>, b: seq<Field<V>>, bulk: seq<string>)
    requires forall i :: 0 <= i < |a| ==> !IsBulk(bulk, a[i].key)
    requires forall i :: 0 <= i < |b| ==> !IsBulk(bulk, b[i].key)
    requires IsBulk(bulk, f.key)
    ensures Scalars(a + [f] + b, bulk) == a + b
  {
    ScalarsAppendTwice(a, [f], b, bulk);
    ScalarsOnly(a, bulk);
    ScalarsOnly(b, bulk);
    ScalarsOfOne(f, bulk);
    EmptyMiddle(a, b);
  }

  lemma EmptyMiddle<T>(a: seq<T>, b: seq<T>)
    ensures a + [] + b == a + b
  {
  }

  lemma AroundIndex<T>(s: seq<T>, i: nat)
    requires i < |s|
    ensures s == s[..i] + [s[i]] + s[i + 1..]
  {
  }

  lemma MoveLastIs<V>(kv: seq<Field<V>>, i: nat)
    requires IsDict(kv) && i < |kv|
    ensures MoveLast(kv, kv[i].key) == Scalars(kv, [kv[i].key]) + [kv[i]]
  {
    assert Has(kv, kv[i].key);
    assert Find(kv, kv[i].key) == i;
    AroundIndex(kv, i);
    WithoutOne(kv[..i], kv[i], kv[i + 1..], [kv[i].key]);
  }

  lemma {:induction false} ScalarsTwice<V>(kv: seq<Field<V>>, bulk: seq<string>, key: string)
    ensures Scalars(Scalars(kv, bulk), [key]) == Scalars(kv, bulk + [key])
  {
    if kv != [] {
      var front, last := kv[..|kv| - 1], kv[|kv| - 1];
      ScalarsTwice(front, bulk, key);
      var one := if IsBulk(bulk, last.key) then [] else [last];
      ScalarsAppend(Scalars(front, bulk), one, [key]);
      assert one != [] ==> one[..0] == [];
    }
  }

  lemma TrailerKeys<V>(kv: seq<Field<V>>, bulk: seq<string>, i: nat)
    requires IsDict(kv) && i < |Trailer(kv, bulk)|
    ensures Trailer(kv, bulk)[i].key in bulk
  {
    TrailerMembers(kv, bulk, Trailer(kv, bulk)[i]);
  }

  lemma {:induction false} ScalarsAreDict<V>(kv: seq<Field<V>>, bulk: seq<string>)
    requires IsDict(kv)
    ensures IsDict(Scalars(kv, bulk))
  {
    if kv != [] {
      var front := kv[..|kv| - 1];
      var s := Scalars(front, bulk);
      ScalarsAreDict(front, bulk);
      forall i | 0 <= i < |s| ensures s[i].key != kv[|kv| - 1].key {
        ScalarsMembers(front, bulk, s[i]);
      }
    }
  }

  lemma {:induction false} TrailerIsDict<V>(kv: seq<Field<V>>, bulk: seq<string>)
    requires IsDict(kv) && Distinct(bulk)
    ensures IsDict(Trailer(kv, bulk))
  {
    if bulk != [] {
      var front := bulk[..|bulk| - 1];
      var t := Trailer(kv, front);
      TrailerIsDict(kv, front);
      forall i | 0 <= i < |t| ensures t[i].key != bulk[|bulk| - 1] {
        TrailerKeys(kv, front, i);
      }
    }
  }

  lemma LaidOutIsDict<V>(kv: seq<Field<V>>, bulk: seq<string>)
    requires IsDict(kv) && Distinct(bulk)
    ensures IsDict(Scalars(kv, bulk) + Trailer(kv, bulk))
  {
    ScalarsAreDict(kv, bulk);
    TrailerIsDict(kv, bulk);
    forall i, j | 0 <= i < |Scalars(kv, bulk)| && 0 <= j < |Trailer(kv, bulk)|
      ensures Scalars(kv, bulk)[i].key != Trailer(kv, bulk)[j].key
    {
      ScalarsMembers(kv, bulk, Scalars(kv, bulk)[i]);
      TrailerKeys(kv, bulk, j);
    }
  }

  // The scalars and the trailer after one more bulk key.
  lemma OneMoreScalar<V>(kv: seq<Field<V>>, front: seq<string>, key: string)
    requires IsDict(kv) && key !in front
    ensures Scalars(Scalars(kv, front) + Trailer(kv, front), [key]) == Scalars(kv, front + [key]) + Trailer(kv, front)
  {
    var b := Trailer(kv, front);
    ScalarsTwice(kv, front, key);
    ScalarsAppend(Scalars(kv, front), b, [key]);
    forall i | 0 <= i < |b| ensures b[i].key != key {
      TrailerKeys(kv, front, i);
    }
    ScalarsOnly(b, [key]);
  }

  lemma OneMoreTrailer<V>(kv: seq<Field<V>>, front: seq<string>, key: string)
    ensures Trailer(kv, front + [key]) == Trailer(kv, front) + (if Has(kv, key) then [kv[Find(kv, key)]] else [])
  {
    assert (front + [key])[..|front|] == front;
  }

  lemma FieldSurvives<V>(kv: seq<Field<V>>, front: seq<string>, key: string) returns (i: nat)
    requires IsDict(kv) && key !in front && Has(kv, key)
    ensures i < |Scalars(kv, front) + Trailer(kv, front)|
    ensures (Scalars(kv, front) + Trailer(kv, front))[i] == kv[Find(kv, key)]
  {
    var a, f := Scalars(kv, front), kv[Find(kv, key)];
    ScalarsMembers(kv, front, f);
    i :| 0 <= i < |a| && a[i] == f;
  }

  lemma FieldAbsent<V>(kv: seq<Field<V>>, front: seq<string>, key: string)
    requires IsDict(kv) && !Has(kv, key)
    ensures !Has(Scalars(kv, front) + Trailer(kv, front), key)
  {
    var both := Scalars(kv, front) + Trailer(kv, front);
    forall i | 0 <= i < |both| ensures both[i].key != key {
      if i < |Scalars(kv, front)| {
        ScalarsMembers(kv, front, both[i]);
      } else {
        assert both[i] in Trailer(kv, front);
        TrailerMembers(kv, front, both[i]);
      }
    }
  }

  lemma OneMoreKey<V>(kv: seq<Field<V>>, front: seq<string>, key: string)
    requires IsDict(kv) && Distinct(front) && key !in front
    ensures MoveLast(Scalars(kv, front) + Trailer(kv, front), key) ==
            Scalars(kv, front + [key]) + Trailer(kv, front + [key])
  {
    var both := Scalars(kv, front) + Trailer(kv, front);
    LaidOutIsDict(kv, front);
    OneMoreScalar(kv, front, key);
    OneMoreTrailer(kv, front, key);
    if Has(kv, key) {
      var i := FieldSurvives(kv, front, key);
      MoveLastIs(both, i);
    } else {
      FieldAbsent(kv, front, key);
      ScalarsOnly(both, [key]);
    }
  }

  /** Moving the bulk keys one by one leaves the scalar fields in their old order,
      followed by the bulk fields that are there in the order of the list; no field is
      lost, added or changed. */
  lemma {:induction false} MoveBulkLastIs<V>(kv: seq<Field<V>>, bulk: seq<string>)
    requires IsDict(kv) && Distinct(bulk)
    ensures MoveBulkLast(kv, bulk) == Scalars(kv, bulk) + Trailer(kv, bulk)
  {
    if bulk == [] {
      ScalarsOnly(kv, bulk);
    } else {
      var front, key := bulk[..|bulk| - 1], bulk[|bulk| - 1];
      assert bulk == front + [key];
      DistinctSnoc(front, key);
      MoveBulkLastIs(kv, front);
      OneMoreKey(kv, front, key);
    }
  }

  lemma MoveBulkKeepsFields<V>(kv: seq<Field<V>>, bulk: seq<string>)
    requires IsDict(kv) && Distinct(bulk)
    ensures IsDict(MoveBulkLast(kv, bulk)) && forall f :: f in MoveBulkLast(kv, bulk) <==> f in kv
  {
    MoveBulkLastIs(kv, bulk);
    LaidOutIsDict(kv, bulk);
    forall f ensures f in MoveBulkLast(kv, bulk) <==> f in kv {
      ScalarsMembers(kv, bulk, f);
      TrailerMembers(kv, bulk, f);
    }
  }

  // ----- Capabilities -----

  /** Every capability the converter did not set is written as `no`. */
  function DeclareMissing<V>(kv: seq<Field<V>>, capabilities: seq<string>, no: V): seq<Field<V>> {
    if capabilities == [] then kv
    else
      var declared := DeclareMissing(kv, capabilities[..|capabilities| - 1], no);
      var key := capabilities[|capabilities| - 1];
      if Has(declared, key) then declared else declared + [Field(key, no)]
  }

  method FillCapabilities<V>(kv: seq<Field<V>>, capabilities: seq<string>, no: V) returns (r: seq<Field<V>>)
    ensures r == DeclareMissing(kv, capabilities, no)
  {
    r := kv;
    for k := 0 to |capabilities|
      invariant r == DeclareMissing(kv, capabilities[..k], no)
    {
      assert capabilities[..k + 1][..k] == capabilities[..k];
      if !Has(r, capabilities[k]) {
        r := r + [Field(capabilities[k], no)];
      }
    }
    assert capabilities[..|capabilities|] == capabilities;
  }

  lemma HasAppend<V>(kv: seq<Field<V>>, f: Field<V>, key: string)
    ensures Has(kv + [f], key) <==> Has(kv, key) || f.key == key
  {
    HasInFront(kv + [f], key);
    assert (kv + [f])[..|kv|] == kv;
  }

  /** Every capability is stated, what was stated stays, and nothing else appears. */
  lemma {:induction false} EveryCapabilityIsStated<V>(kv: seq<Field<V>>, capabilities: seq<string>, no: V)
    requires IsDict(kv)
    ensures var r := DeclareMissing(kv, capabilities, no);
            IsDict(r) && kv <= r && (forall key :: key in capabilities ==> Has(r, key)) &&
            forall f :: f in r ==> f in kv || (f.key in capabilities && f.value == no && !Has(kv, f.key))
  {
    if capabilities != [] {
      var front, key := capabilities[..|capabilities| - 1], capabilities[|capabilities| - 1];
      var declared := DeclareMissing(kv, front, no);
      EveryCapabilityIsStated(kv, front, no);
      assert capabilities == front + [key];
      forall k ensures Has(declared + [Field(key, no)], k) <==> Has(declared, k) || k == key {
        HasAppend(declared, Field(key, no), k);
      }
      if Has(kv, key) {
        var i :| 0 <= i < |kv| && kv[i].key == key;
        assert declared[i].key == key;
      }
    }
  }

  /** The same, key by key. */
  lemma LookupAfterDeclaring<V>(kv: seq<Field<V>>, capabilities: seq<string>, no: V, key: string)
    requires IsDict(kv)
    ensures Lookup(DeclareMissing(kv, capabilities, no), key) ==
            if !Has(kv, key) && key in capabilities then Some(no) else Lookup(kv, key)
  {
    var r := DeclareMissing(kv, capabilities, no);
    EveryCapabilityIsStated(kv, capabilities, no);
    if Has(r, key) {
      assert r[Find(r, key)] in r;
    }
    if Has(kv, key) {
      var f := kv[Find(kv, key)];
      assert r[Find(kv, key)] == f;
      LookupIsField(r, key, f.value);
    }
  }
}
