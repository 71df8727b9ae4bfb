/** Tables filled by index assignment with Python's index rule, under which a negative
    index counts from the end. */
module PythonTables {
  import opened Sequences

  predicate InRange(i: int, n: nat) {
    0 <= i + n && i < n
  }

  function Slot(i: int, n: nat): nat
    requires InRange(i, n)
  {
    if i < 0 then i + n else i
  }

  datatype Write<T> = Write(id: int, value: T)

  predicate AllInRange<T>(writes: seq<Write<T>>, n: nat) {
    forall k :: 0 <= k < |writes| ==> InRange(writes[k].id, n)
  }

  function Slots<T>(writes: seq<Write<T>>, n: nat): (r: seq<nat>)
    requires AllInRange(writes, n)
    ensures |r| == |writes| && forall k :: 0 <= k < |r| ==> r[k] == Slot(writes[k].id, n) < n
  {
    seq(|writes|, k requires 0 <= k < |writes| => Slot(writes[k].id, n))
  }

  /** The table after the writes, starting from `blank` everywhere. */
  function Filled<T>(n: nat, blank: T, writes: seq<Write<T>>): (r: seq<T>)
    requires AllInRange(writes, n)
    ensures |r| == n
  {
    if writes == [] then seq(n, i => blank)
    else
      var last := writes[|writes| - 1];
      Filled(n, blank, writes[..|writes| - 1])[Slot(last.id, n) := last.value]
  }

  /** The last write to a slot, or |writes| when there is none. */
  function LastWriter<T>(n: nat, writes: seq<Write<T>>, slot: nat): (k: nat)
    requires AllInRange(writes, n)
    ensures k < |writes| ==> Slot(writes[k].id, n) == slot
    ensures k <= |writes| && forall j :: 0 <= j < |writes| && Slot(writes[j].id, n) == slot ==> j <= k < |writes|
  {
    if writes == [] then 0
    else if Slot(writes[|writes| - 1].id, n) == slot then |writes| - 1
    else
      var k := LastWriter(n, writes[..|writes| - 1], slot);
      if k < |writes| - 1 then k else |writes|
  }

  /** Every slot holds what its last writer put there. */
  lemma {:induction false} LastWriterWins<T>(n: nat, blank: T, writes: seq<Write<T>>, slot: nat)
    requires AllInRange(writes, n) && slot < n
    ensures var k := LastWriter(n, writes, slot);
            Filled(n, blank, writes)[slot] == if k < |writes| then writes[k].value else blank
  {
    if writes != [] {
      LastWriterWins(n, blank, writes[..|writes| - 1], slot);
    }
  }

  // ----- Pigeonhole -----

  function Below(n: nat): (s: set<nat>)
    ensures |s| == n && forall i: nat :: i in s <==> i < n
  {
    if n == 0 then {} else Below(n - 1) + {n - 1}
  }

  lemma SubsetOfSameSize(a: set<nat>, b: set<nat>)
    requires a <= b && |a| == |b|
    ensures a == b
  {
    assert |b - a| == 0 by {
      assert b == a + (b - a);
    }
  }

  /** n numbers below n are distinct exactly when they leave out none. */
  lemma Pigeonhole(xs: seq<nat>)
    requires forall k :: 0 <= k < |xs| ==> xs[k] < |xs|
    ensures Distinct(xs) <==> forall i: nat :: i < |xs| ==> i in xs
  {
    assert Elements(xs) <= Below(|xs|);
    if Distinct(xs) {
      DistinctCount(xs);
      SubsetOfSameSize(Elements(xs), Below(|xs|));
      forall i: nat | i < |xs| ensures i in xs {
        assert i in Elements(xs);
      }
    }
    if forall i: nat :: i < |xs| ==> i in xs {
      assert Elements(xs) == Below(|xs|);
      FullIsDistinct(xs);
    }
  }

  lemma {:induction false} CountAtMost<T(!new)>(xs: seq<T>)
    ensures |Elements(xs)| <= |xs|
  {
    if xs != [] {
      CountAtMost(xs[..|xs| - 1]);
      assert Elements(xs) == Elements(xs[..|xs| - 1]) + {xs[|xs| - 1]};
    }
  }

  lemma FullIsDistinct<T(!new)>(xs: seq<T>)
    requires |Elements(xs)| == |xs|
    ensures Distinct(xs)
  {
    forall i, j | 0 <= i < j < |xs| ensures xs[i] != xs[j] {
      if xs[i] == xs[j] {
        var rest := xs[..j] + xs[j + 1..];
        assert Elements(rest) == Elements(xs) by {
          assert xs == xs[..j] + [xs[j]] + xs[j + 1..];
          assert xs[..j][i] == xs[j];
        }
        CountAtMost(rest);
      }
    }
  }

  // ----- Tables with a hole check -----

  lemma SlotIsWritten<T>(n: nat, writes: seq<Write<T>>, slot: nat)
    requires AllInRange(writes, n)
    ensures slot in Slots(writes, n) <==> LastWriter(n, writes, slot) < |writes|
  {
    var k := LastWriter(n, writes, slot);
    if k < |writes| {
      assert Slots(writes, n)[k] == slot;
    }
    if slot in Slots(writes, n) {
      var j :| 0 <= j < |writes| && Slots(writes, n)[j] == slot;
      assert Slot(writes[j].id, n) == slot;
    }
  }

  ghost predicate NoHole<T>(n: nat, writes: seq<Write<T>>)
    requires AllInRange(writes, n)
  {
    forall i: nat :: i < n ==> LastWriter(n, writes, i) < |writes|
  }

  /** A table as large as the number of writes has no hole exactly when no two of the
      writes hit the same slot. */
  lemma NoHoleIff<T>(writes: seq<Write<T>>)
    requires AllInRange(writes, |writes|)
    ensures NoHole(|writes|, writes) <==> Distinct(Slots(writes, |writes|))
  {
    forall i: nat | i < |writes| ensures i in Slots(writes, |writes|) <==> LastWriter(|writes|, writes, i) < |writes| {
      SlotIsWritten(|writes|, writes, i);
    }
    Pigeonhole(Slots(writes, |writes|));
  }
}
