/** The audit of the key layout, against what the writer lays out. */
module TrailerAudit {
  import opened Sequences
  import opened Metadata

  function Present(keys: seq<string>, bulk: seq<string>): seq<string> {
    if bulk == [] then []
    else
      var last := bulk[|bulk| - 1];
      Present(keys, bulk[..|bulk| - 1]) + (if last in keys then [last] else [])
  }

  // keys[-n:]
  function Tail(keys: seq<string>, n: nat): seq<string> {
    if n >= |keys| then keys else keys[|keys| - n..]
  }

  predicate TrailerOk(keys: seq<string>, bulk: seq<string>) {
    var present := Present(keys, bulk);
    present == [] || Tail(keys, |present|) == present
  }

  function IndexOf(keys: seq<string>, key: string): (k: nat)
    requires key in keys
    ensures k < |keys| && keys[k] == key && forall j :: 0 <= j < k ==> keys[j] != key
  {
    if keys[0] == key then 0 else 1 + IndexOf(keys[1..], key)
  }

  lemma {:induction false} PresentMembers(keys: seq<string>, bulk: seq<string>)
    ensures forall key :: key in Present(keys, bulk) <==> key in bulk && key in keys
  {
    if bulk != [] {
      PresentMembers(keys, bulk[..|bulk| - 1]);
      assert bulk == bulk[..|bulk| - 1] + [bulk[|bulk| - 1]];
    }
  }

  lemma {:induction false} PresentDistinct(keys: seq<string>, bulk: seq<string>)
    requires Distinct(bulk)
    ensures Distinct(Present(keys, bulk))
  {
    if bulk != [] {
      var front, last := bulk[..|bulk| - 1], bulk[|bulk| - 1];
      PresentDistinct(keys, front);
      PresentMembers(keys, front);
      DistinctSnoc(Present(keys, front), last);
      assert last !in front;
    }
  }

  /** min(keys.index(k) for k in present) */
  function FirstOf(keys: seq<string>, present: seq<string>): (k: nat)
    requires present != [] && forall i :: 0 <= i < |present| ==> present[i] in keys
    ensures k < |keys| && keys[k] in present && forall j :: 0 <= j < k ==> keys[j] !in present
  {
    var last := IndexOf(keys, present[|present| - 1]);
    if |present| == 1 then last
    else
      var front := present[..|present| - 1];
      var k := FirstOf(keys, front);
      assert present == front + [present[|present| - 1]];
      if last < k then last else k
  }

  datatype FileType = Missing | NoTrailer | Before | AfterTrailer

  function FileTypeStatus(keys: seq<string>, bulk: seq<string>, fileType: string): FileType {
    PresentMembers(keys, bulk);
    var present := Present(keys, bulk);
    if fileType !in keys then Missing
    else if present == [] then NoTrailer
    else
      assert forall i :: 0 <= i < |present| ==> present[i] in present;
      if IndexOf(keys, fileType) < FirstOf(keys, present) then Before else AfterTrailer
  }

  ghost predicate LaidOut(keys: seq<string>, head: seq<string>, bulk: seq<string>) {
    keys == head + Present(keys, bulk) && forall key :: key in head ==> key !in bulk
  }

  /** The check passes exactly when the keys are a head without bulk keys followed by
      the bulk keys present, in list order. */
  lemma TrailerOkIff(keys: seq<string>, bulk: seq<string>)
    requires Distinct(keys) && Distinct(bulk)
    ensures TrailerOk(keys, bulk) <==> exists head :: LaidOut(keys, head, bulk)
  {
    var present := Present(keys, bulk);
    PresentMembers(keys, bulk);
    if TrailerOk(keys, bulk) {
      var cut := |keys| - |Tail(keys, |present|)|;
      var head := if present == [] then keys else keys[..cut];
      assert keys == head + present;
      DistinctConcat(head, present);
      assert LaidOut(keys, head, bulk);
    }
    if head :| LaidOut(keys, head, bulk) {
      assert Tail(keys, |present|) == present;
    }
  }

  /** The status by position alone: a file type is reported as stranded exactly when some
      bulk key comes before it, or is it. */
  lemma FileTypeStatusIff(keys: seq<string>, bulk: seq<string>, fileType: string)
    ensures var st := FileTypeStatus(keys, bulk, fileType);
            && (st == Missing <==> fileType !in keys)
            && (st == NoTrailer <==> fileType in keys && forall i :: 0 <= i < |keys| ==> keys[i] !in bulk)
            && (st == AfterTrailer <==>
                  fileType in keys && exists i :: 0 <= i < |keys| && keys[i] in bulk && fileType !in keys[..i])
  {
    var present := Present(keys, bulk);
    PresentMembers(keys, bulk);
    assert present != [] ==> present[0] in present;
    if fileType in keys && present != [] {
      assert forall i :: 0 <= i < |present| ==> present[i] in present;
      var t, f := IndexOf(keys, fileType), FirstOf(keys, present);
      forall i | 0 <= i < |keys| && keys[i] in bulk ensures f <= i {
        assert keys[i] in present;
      }
      if t < f {
        forall i | 0 <= i < |keys| && keys[i] in bulk ensures fileType in keys[..i] {
          assert keys[..i][t] == fileType;
        }
      } else {
        assert keys[f] in bulk && fileType !in keys[..f];
      }
    }
  }

  /** A file that passes never has its file type stranded behind the trailer. */
  lemma PassingFileTypeComesFirst(keys: seq<string>, bulk: seq<string>, fileType: string)
    requires Distinct(keys) && Distinct(bulk) && TrailerOk(keys, bulk) && fileType !in bulk
    ensures FileTypeStatus(keys, bulk, fileType) != AfterTrailer
  {
    var present := Present(keys, bulk);
    PresentMembers(keys, bulk);
    if fileType in keys && present != [] {
      TrailerOkIff(keys, bulk);
      var head :| LaidOut(keys, head, bulk);
      assert forall i :: 0 <= i < |present| ==> present[i] in present;
      forall j | |head| <= j < |keys| ensures keys[j] in present {
        assert keys[j] == present[j - |head|];
      }
      forall j | 0 <= j < |head| ensures keys[j] !in present {
        assert keys[j] in head;
      }
    }
  }

  // ----- The writer passes its own audit -----

  lemma {:induction false} KeysOfTrailer<V>(kv: seq<Field<V>>, bulk: seq<string>, keys: seq<string>)
    requires forall key :: key in bulk ==> (key in keys <==> Has(kv, key))
    ensures Keys(Trailer(kv, bulk)) == Present(keys, bulk)
  {
    if bulk != [] {
      var front, last := bulk[..|bulk| - 1], bulk[|bulk| - 1];
      assert bulk == front + [last];
      KeysOfTrailer(kv, front, keys);
      assert Keys(Trailer(kv, bulk)) == Keys(Trailer(kv, front)) + (if Has(kv, last) then [last] else []);
    }
  }

  lemma HasIffKey<V>(kv: seq<Field<V>>, key: string)
    ensures Has(kv, key) <==> key in Keys(kv)
  {
    if Has(kv, key) {
      var i :| 0 <= i < |kv| && kv[i].key == key;
      assert Keys(kv)[i] == key;
    }
  }

  lemma HeadIsScalar<V>(kv: seq<Field<V>>, bulk: seq<string>, key: string)
    requires key in Keys(Scalars(kv, bulk))
    ensures key !in bulk && Has(kv, key)
  {
    var s := Scalars(kv, bulk);
    var i :| 0 <= i < |Keys(s)| && Keys(s)[i] == key;
    ScalarsMembers(kv, bulk, s[i]);
    var j :| 0 <= j < |kv| && kv[j] == s[i];
    assert kv[j].key == key;
  }

  lemma SameFieldsSameKeys<V>(kv: seq<Field<V>>, kw: seq<Field<V>>, key: string)
    requires forall f :: f in kw <==> f in kv
    ensures Has(kv, key) <==> Has(kw, key)
  {
    if Has(kv, key) {
      var i :| 0 <= i < |kv| && kv[i].key == key;
      assert kv[i] in kw;
      var j :| 0 <= j < |kw| && kw[j] == kv[i];
    }
    if Has(kw, key) {
      var i :| 0 <= i < |kw| && kw[i].key == key;
      assert kw[i] in kv;
      var j :| 0 <= j < |kv| && kv[j] == kw[i];
    }
  }

  lemma WrittenKeys<V>(kv: seq<Field<V>>, bulk: seq<string>)
    requires IsDict(kv) && Distinct(bulk)
    ensures Keys(MoveBulkLast(kv, bulk)) == Keys(Scalars(kv, bulk)) + Keys(Trailer(kv, bulk))
    ensures forall key :: key in Keys(MoveBulkLast(kv, bulk)) <==> Has(kv, key)
  {
    MoveBulkLastIs(kv, bulk);
    MoveBulkKeepsFields(kv, bulk);
    forall key ensures key in Keys(MoveBulkLast(kv, bulk)) <==> Has(kv, key) {
      HasIffKey(MoveBulkLast(kv, bulk), key);
      SameFieldsSameKeys(kv, MoveBulkLast(kv, bulk), key);
    }
  }

  ghost predicate BulkFree(keys: seq<string>, bulk: seq<string>) {
    forall key :: key in keys ==> key !in bulk
  }

  /** Whatever order a converter wrote its fields in, the file passes: the writer's
      output, behind any header fields a reader adds in front, has its bulk keys last
      and in list order. */
  lemma WriterPassesAudit<V>(virtual: seq<string>, kv: seq<Field<V>>, bulk: seq<string>)
    requires IsDict(kv) && Distinct(bulk) && BulkFree(virtual, bulk)
    requires Distinct(virtual + Keys(MoveBulkLast(kv, bulk)))
    ensures TrailerOk(virtual + Keys(MoveBulkLast(kv, bulk)), bulk)
  {
    var keys := virtual + Keys(MoveBulkLast(kv, bulk));
    WrittenKeys(kv, bulk);
    KeysOfTrailer(kv, bulk, keys);
    HeadIsBulkFree(virtual, kv, bulk);
    LaidOutPasses(keys, virtual, Keys(Scalars(kv, bulk)), bulk);
  }

  lemma LaidOutPasses(keys: seq<string>, virtual: seq<string>, scalars: seq<string>, bulk: seq<string>)
    requires Distinct(keys) && Distinct(bulk) && BulkFree(virtual + scalars, bulk)
    requires keys == virtual + (scalars + Present(keys, bulk))
    ensures TrailerOk(keys, bulk)
  {
    assert LaidOut(keys, virtual + scalars, bulk);
    TrailerOkIff(keys, bulk);
  }

  lemma HeadIsBulkFree<V>(virtual: seq<string>, kv: seq<Field<V>>, bulk: seq<string>)
    requires BulkFree(virtual, bulk)
    ensures BulkFree(virtual + Keys(Scalars(kv, bulk)), bulk)
  {
    forall key | key in Keys(Scalars(kv, bulk)) ensures key !in bulk {
      HeadIsScalar(kv, bulk, key);
    }
  }

  // ----- Doing it twice -----

  lemma {:induction false} TrailerDependsOnFields<V>(kv: seq<Field<V>>, kw: seq<Field<V>>, bulk: seq<string>)
    requires IsDict(kv) && IsDict(kw) && forall f :: f in kw <==> f in kv
    ensures Trailer(kv, bulk) == Trailer(kw, bulk)
  {
    if bulk != [] {
      var key := bulk[|bulk| - 1];
      TrailerDependsOnFields(kv, kw, bulk[..|bulk| - 1]);
      SameFieldsSameKeys(kv, kw, key);
      if Has(kv, key) {
        var i := Find(kv, key);
        assert kv[i] in kw;
        var j :| 0 <= j < |kw| && kw[j] == kv[i];
        assert kw[Find(kw, key)].key == kw[j].key;
      }
    }
  }

  lemma {:induction false} NoScalarInTrailer<V>(kv: seq<Field<V>>, bulk: seq<string>, part: seq<Field<V>>)
    requires IsDict(kv) && forall i :: 0 <= i < |part| ==> part[i].key in bulk
    ensures Scalars(part, bulk) == []
  {
    if part != [] {
      NoScalarInTrailer(kv, bulk, part[..|part| - 1]);
    }
  }

  lemma MovingTwiceIsMovingOnce<V>(kv: seq<Field<V>>, bulk: seq<string>)
    requires IsDict(kv) && Distinct(bulk)
    ensures MoveBulkLast(MoveBulkLast(kv, bulk), bulk) == MoveBulkLast(kv, bulk)
  {
    var once, s, t := MoveBulkLast(kv, bulk), Scalars(kv, bulk), Trailer(kv, bulk);
    MoveBulkLastIs(kv, bulk);
    MoveBulkKeepsFields(kv, bulk);
    MoveBulkLastIs(once, bulk);
    TrailerDependsOnFields(kv, once, bulk);
    ScalarsAppend(s, t, bulk);
    forall i | 0 <= i < |s| ensures !IsBulk(bulk, s[i].key) {
      ScalarsMembers(kv, bulk, s[i]);
    }
    ScalarsOnly(s, bulk);
    forall i | 0 <= i < |t| ensures t[i].key in bulk {
      TrailerKeys(kv, bulk, i);
    }
    NoScalarInTrailer(kv, bulk, t);
    assert s + [] == s;
  }
}
