/** UTF-8 byte strings as the stream dispatcher sees them: raw bytes, code-point
    boundaries recognised by the continuation-byte test alone, and the byte-wise
    common prefix floored to a boundary. */
module Utf8 {
  type Byte = b: int | 0 <= b < 256
  type Text = seq<Byte>

  function Min(a: nat, b: nat): nat {
    if a <= b then a else b
  }

  // (b & 0xC0) == 0x80
  predicate IsContinuation(b: Byte) {
    0x80 <= b < 0xC0
  }

  predicate IsBoundary(s: Text, k: int) {
    0 <= k <= |s| && (k == 0 || k == |s| || !IsContinuation(s[k]))
  }

  /** The greatest boundary that does not exceed `pos`. */
  function FloorBoundary(s: Text, pos: nat): (r: nat)
    ensures r <= pos && IsBoundary(s, r)
    ensures forall k {:trigger IsBoundary(s, k)} :: r < k <= pos ==> !IsBoundary(s, k)
  {
    if pos >= |s| then |s|
    else if pos > 0 && IsContinuation(s[pos]) then FloorBoundary(s, pos - 1)
    else pos
  }

  method ComputeFloorBoundary(s: Text, pos: nat) returns (r: nat)
    ensures r == FloorBoundary(s, pos)
  {
    if pos >= |s| {
      return |s|;
    }
    r := pos;
    while r > 0 && IsContinuation(s[r])
      invariant r < |s|
      invariant FloorBoundary(s, r) == FloorBoundary(s, pos)
    {
      r := r - 1;
    }
  }

  /** The length of the longest byte-wise common prefix. */
  function CommonLength(a: Text, b: Text): (r: nat)
    ensures r <= |a| && r <= |b| && a[..r] == b[..r]
    ensures r < |a| && r < |b| ==> a[r] != b[r]
  {
    if a == [] || b == [] || a[0] != b[0] then 0
    else
      var r := 1 + CommonLength(a[1..], b[1..]);
      assert a[..r] == [a[0]] + a[1..][..r - 1] && b[..r] == [b[0]] + b[1..][..r - 1];
      r
  }

  lemma CommonLengthIs(a: Text, b: Text, k: nat)
    requires k <= |a| && k <= |b| && a[..k] == b[..k]
    ensures k <= CommonLength(a, b)
    ensures (k == |a| || k == |b| || a[k] != b[k]) ==> k == CommonLength(a, b)
  {
    var r := CommonLength(a, b);
    assert forall j :: 0 <= j < k ==> a[j] == a[..k][j] == b[..k][j] == b[j];
    assert forall j :: 0 <= j < r ==> a[j] == a[..r][j] == b[..r][j] == b[j];
  }

  function CommonPrefixBytes(a: Text, b: Text): nat {
    FloorBoundary(a, CommonLength(a, b))
  }

  method ComputeCommonPrefixBytes(a: Text, b: Text) returns (r: nat)
    ensures r == CommonPrefixBytes(a, b)
  {
    var n := Min(|a|, |b|);
    var i := 0;
    while i < n && a[i] == b[i]
      invariant i <= n
      invariant a[..i] == b[..i]
    {
      i := i + 1;
    }
    CommonLengthIs(a, b, i);
    r := ComputeFloorBoundary(a, i);
  }

  // ----- Well-formed text: whole code points, one after the other -----

  /** Bytes announced by a lead byte; 0 for a byte that cannot lead. */
  function SequenceLength(lead: Byte): nat {
    if lead < 0x80 then 1
    else if lead < 0xC0 then 0
    else if lead < 0xE0 then 2
    else if lead < 0xF0 then 3
    else if lead < 0xF8 then 4
    else 0
  }

  predicate WellFormed(s: Text) {
    s == [] ||
    (var n := SequenceLength(s[0]);
     0 < n <= |s| && (forall k :: 1 <= k < n ==> IsContinuation(s[k])) && WellFormed(s[n..]))
  }

  /** Cutting well-formed text at a boundary gives two well-formed halves. */
  lemma {:induction false} CutAtBoundary(s: Text, k: nat)
    requires WellFormed(s) && IsBoundary(s, k)
    ensures WellFormed(s[..k]) && WellFormed(s[k..])
  {
    if k == 0 {
      assert s[0..] == s;
    } else {
      var n := SequenceLength(s[0]);
      assert k >= n;
      var rest := s[n..];
      if k - n < |rest| {
        assert rest[k - n] == s[k];
      }
      CutAtBoundary(rest, k - n);
      assert s[..k][n..] == rest[..k - n];
      assert s[k..] == rest[k - n..];
    }
  }

  lemma {:induction false} JoinWellFormed(a: Text, b: Text)
    requires WellFormed(a) && WellFormed(b)
    ensures WellFormed(a + b)
  {
    if a == [] {
      assert a + b == b;
    } else {
      var n := SequenceLength(a[0]);
      JoinWellFormed(a[n..], b);
      assert (a + b)[n..] == a[n..] + b;
    }
  }

  /** Inside well-formed text, the end of a well-formed prefix is a boundary. */
  lemma {:induction false} PrefixEndsAtBoundary(p: Text, s: Text)
    requires WellFormed(p) && WellFormed(s) && p <= s
    ensures IsBoundary(s, |p|)
  {
    if p != [] && |p| < |s| {
      var n := SequenceLength(p[0]);
      assert s[0] == p[0];
      if n < |p| {
        assert s[n..][..|p| - n] == p[n..];
        PrefixEndsAtBoundary(p[n..], s[n..]);
        assert s[n..][|p| - n] == s[|p|];
      } else {
        var rest := s[n..];
        assert rest[0] == s[|p|];
      }
    }
  }
}
