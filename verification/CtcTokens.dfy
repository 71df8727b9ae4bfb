/** The dense CTC token table: index assignment, the gap check and the blank. */
module CtcTokens {
  import opened PythonTables

  datatype Error = NoVocabulary | IndexOutOfRange | Gap(first: nat) | NoPadToken | PadNotFound

  datatype Table = Table(tokens: seq<string>, blankId: int) | Rejected(error: Error)

  function MaxId(writes: seq<Write<string>>): int
    requires writes != []
  {
    if |writes| == 1 then writes[0].id
    else
      var m := MaxId(writes[..|writes| - 1]);
      if writes[|writes| - 1].id > m then writes[|writes| - 1].id else m
  }

  /** One more than the largest id of the vocabulary and the added tokens. */
  function Size(writes: seq<Write<string>>): int
    requires writes != []
  {
    MaxId(writes) + 1
  }

  lemma {:induction false} MaxIdIsLargest(writes: seq<Write<string>>, k: nat)
    requires k < |writes|
    ensures writes[k].id <= MaxId(writes)
  {
    if k < |writes| - 1 {
      MaxIdIsLargest(writes[..|writes| - 1], k);
    }
  }

  /** The last write with this text, or |writes|. */
  function LastNamed(writes: seq<Write<string>>, name: string): (k: nat)
    ensures k <= |writes| && (k < |writes| ==> writes[k].value == name)
    ensures forall j :: 0 <= j < |writes| && writes[j].value == name ==> j <= k < |writes|
  {
    if writes == [] then 0
    else if writes[|writes| - 1].value == name then |writes| - 1
    else
      var k := LastNamed(writes[..|writes| - 1], name);
      if k < |writes| - 1 then k else |writes|
  }

  predicate HasGap(tokens: seq<string>) {
    exists i :: 0 <= i < |tokens| && tokens[i] == ""
  }

  function FirstGap(tokens: seq<string>): (g: nat)
    ensures g <= |tokens| && (g < |tokens| ==> tokens[g] == "") && forall i :: 0 <= i < g ==> tokens[i] != ""
  {
    if tokens == [] then 0
    else
      var g := FirstGap(tokens[..|tokens| - 1]);
      if g < |tokens| - 1 || tokens[|tokens| - 1] == "" then g else |tokens|
  }

  /** The blank is named by the pad token: the last added token with that text, else
      the vocabulary entry. Texts of a vocabulary are distinct. */
  function BlankWrite(vocab: seq<Write<string>>, added: seq<Write<string>>, pad: string): (k: nat)
    ensures k <= |vocab + added| && (k < |vocab + added| ==> (vocab + added)[k].value == pad)
  {
    if LastNamed(added, pad) < |added| then |vocab| + LastNamed(added, pad)
    else if LastNamed(vocab, pad) < |vocab| then LastNamed(vocab, pad)
    else |vocab + added|
  }

  function Read(vocab: seq<Write<string>>, added: seq<Write<string>>, pad: string): Table {
    var writes := vocab + added;
    if vocab == [] then Rejected(NoVocabulary)
    else
      var n := Size(writes);
      if n < 0 || !AllInRange(writes, n) then Rejected(IndexOutOfRange)
      else
        var tokens := Filled(n, "", writes);
        if HasGap(tokens) then Rejected(Gap(FirstGap(tokens)))
        else if pad == "" then Rejected(NoPadToken)
        else if BlankWrite(vocab, added, pad) == |writes| then Rejected(PadNotFound)
        else Table(tokens, writes[BlankWrite(vocab, added, pad)].id)
  }

  method Assign(tokens: array<string>, writes: seq<Write<string>>, ghost done: seq<Write<string>>) returns (ok: bool)
    requires AllInRange(done, tokens.Length) && tokens[..] == Filled(tokens.Length, "", done)
    modifies tokens
    ensures ok <==> AllInRange(done + writes, tokens.Length)
    ensures ok ==> tokens[..] == Filled(tokens.Length, "", done + writes)
  {
    assert done + writes[..0] == done;
    for k := 0 to |writes|
      invariant AllInRange(done + writes[..k], tokens.Length)
      invariant tokens[..] == Filled(tokens.Length, "", done + writes[..k])
    {
      ghost var next := done + writes[..k + 1];
      assert next[..|next| - 1] == done + writes[..k] && next[|next| - 1] == writes[k];
      if !InRange(writes[k].id, tokens.Length) {
        assert (done + writes)[|done| + k] == writes[k];
        return false;
      }
      tokens[Slot(writes[k].id, tokens.Length)] := writes[k].value;
    }
    assert writes[..|writes|] == writes;
    ok := true;
  }

  method ReadTokenizer(vocab: seq<Write<string>>, added: seq<Write<string>>, pad: string) returns (r: Table)
    ensures r == Read(vocab, added, pad)
  {
    if vocab == [] {
      return Rejected(NoVocabulary);
    }
    ghost var writes := vocab + added;
    var n := Size(vocab + added);
    if n < 0 {
      return Rejected(IndexOutOfRange);
    }
    var tokens := new string[n](_ => "");
    var ok := Assign(tokens, vocab, []);
    assert [] + vocab == vocab;
    if !ok {
      OutOfRangeStays(vocab, added, n);
      return Rejected(IndexOutOfRange);
    }
    ok := Assign(tokens, added, vocab);
    if !ok {
      return Rejected(IndexOutOfRange);
    }
    var gap := FirstGap(tokens[..]);
    if gap < n {
      return Rejected(Gap(gap));
    }
    if pad == "" {
      return Rejected(NoPadToken);
    }
    var k := BlankWrite(vocab, added, pad);
    if k == |vocab + added| {
      return Rejected(PadNotFound);
    }
    r := Table(tokens[..], (vocab + added)[k].id);
  }

  lemma OutOfRangeStays(vocab: seq<Write<string>>, added: seq<Write<string>>, n: nat)
    requires !AllInRange(vocab, n)
    ensures !AllInRange(vocab + added, n)
  {
    var k :| 0 <= k < |vocab| && !InRange(vocab[k].id, n);
    assert (vocab + added)[k] == vocab[k];
  }

  /** Which files run off the table: exactly those with an id so negative that counting
      from the end leaves it, whatever the largest id is. */
  lemma IndexOutOfRangeIff(vocab: seq<Write<string>>, added: seq<Write<string>>, pad: string)
    ensures var writes := vocab + added;
            Read(vocab, added, pad) == Rejected(IndexOutOfRange) <==>
            vocab != [] && exists k :: 0 <= k < |writes| && writes[k].id + Size(writes) < 0
  {
    var writes := vocab + added;
    if vocab != [] {
      var n := Size(writes);
      MaxIdIsLargest(writes, 0);
      if n < 0 {
        assert writes[0].id + n < 0;
      } else {
        forall k | 0 <= k < |writes| ensures InRange(writes[k].id, n) <==> writes[k].id + n >= 0 {
          MaxIdIsLargest(writes, k);
        }
      }
    }
  }

  /** An accepted table is dense: every id has been written and holds its last writer's
      text, which is not empty. */
  lemma AcceptedIsDense(vocab: seq<Write<string>>, added: seq<Write<string>>, pad: string, i: nat)
    requires Read(vocab, added, pad).Table? && i < |Read(vocab, added, pad).tokens|
    ensures var r, writes := Read(vocab, added, pad), vocab + added;
            var n := |r.tokens|;
            AllInRange(writes, n) &&
            var k := LastWriter(n, writes, i);
            k < |writes| && r.tokens[i] == writes[k].value != ""
  {
    var r, writes := Read(vocab, added, pad), vocab + added;
    LastWriterWins(|r.tokens|, "", writes, i);
    assert r.tokens[i] != "";
  }

  lemma {:induction false} NameIsFound(writes: seq<Write<string>>, name: string)
    ensures LastNamed(writes, name) < |writes| <==> exists k :: 0 <= k < |writes| && writes[k].value == name
  {
    var k := LastNamed(writes, name);
    if k < |writes| {
      assert writes[k].value == name;
    }
  }

  lemma PadIsFound(vocab: seq<Write<string>>, added: seq<Write<string>>, pad: string)
    ensures BlankWrite(vocab, added, pad) < |vocab + added| <==>
            exists k :: 0 <= k < |vocab + added| && (vocab + added)[k].value == pad
  {
    NameIsFound(vocab, pad);
    NameIsFound(added, pad);
    if k :| 0 <= k < |vocab + added| && (vocab + added)[k].value == pad {
      if k < |vocab| {
        assert vocab[k].value == pad;
      } else {
        assert added[k - |vocab|].value == pad;
      }
    }
  }

  /** The n ids of the table, negative ones counted from the end, and the text that each
      ends up with. */
  ghost predicate Fills(writes: seq<Write<string>>, n: nat, i: nat) {
    exists k :: 0 <= k < |writes| && (writes[k].id == i || writes[k].id + n == i) && writes[k].value != "" &&
      forall j :: k < j < |writes| ==> writes[j].id != i && writes[j].id + n != i
  }

  lemma FilledIff(writes: seq<Write<string>>, n: nat, i: nat)
    requires AllInRange(writes, n) && i < n
    ensures Filled(n, "", writes)[i] != "" <==> Fills(writes, n, i)
  {
    LastWriterWins(n, "", writes, i);
    var l := LastWriter(n, writes, i);
    forall j | 0 <= j < |writes|
      ensures InRange(writes[j].id, n) && (Slot(writes[j].id, n) == i <==> writes[j].id == i || writes[j].id + n == i)
    {
      assert InRange(writes[j].id, n);
    }
    if l < |writes| && writes[l].value != "" {
      assert Fills(writes, n, i);
    }
    if Fills(writes, n, i) {
      var k :| 0 <= k < |writes| && (writes[k].id == i || writes[k].id + n == i) && writes[k].value != "" &&
        forall j :: k < j < |writes| ==> writes[j].id != i && writes[j].id + n != i;
      assert l == k;
    }
  }

  /** `n` is one more than the largest id. */
  ghost predicate IsSize(writes: seq<Write<string>>, n: int) {
    (exists k :: 0 <= k < |writes| && writes[k].id == n - 1) && forall k :: 0 <= k < |writes| ==> writes[k].id < n
  }

  lemma {:induction false} SizeIs(writes: seq<Write<string>>)
    requires writes != []
    ensures IsSize(writes, Size(writes))
  {
    if |writes| > 1 {
      var front := writes[..|writes| - 1];
      SizeIs(front);
      var k :| 0 <= k < |front| && front[k].id == Size(front) - 1;
      assert writes[k].id == MaxId(front);
    }
    assert writes[|writes| - 1].id == MaxId(writes) || |writes| > 1;
    forall k | 0 <= k < |writes| ensures writes[k].id < Size(writes) {
      MaxIdIsLargest(writes, k);
    }
  }

  /** Exactly which files are accepted, from the writes and the pad token alone: one more
      than the largest id is the size n, no id lies below -n, every row ends up with a
      text, and the pad token is one of the texts. */
  lemma AcceptedIff(vocab: seq<Write<string>>, added: seq<Write<string>>, pad: string, n: int)
    requires vocab != [] ==> IsSize(vocab + added, n)
    ensures var r, writes := Read(vocab, added, pad), vocab + added;
            && (r.Table? <==>
                  vocab != [] && n > 0 && (forall k :: 0 <= k < |writes| ==> -n <= writes[k].id) &&
                  (forall i: nat :: i < n ==> Fills(writes, n, i)) &&
                  pad != "" && exists k :: 0 <= k < |writes| && writes[k].value == pad)
            && (r.Table? ==> |r.tokens| == n)
  {
    var writes := vocab + added;
    if vocab != [] {
      SizeIs(writes);
      assert n == Size(writes);
      PadIsFound(vocab, added, pad);
      if n > 0 {
        forall k | 0 <= k < |writes| ensures InRange(writes[k].id, n) <==> -n <= writes[k].id {
          MaxIdIsLargest(writes, k);
        }
        if AllInRange(writes, n) {
          forall i: nat | i < n ensures Filled(n, "", writes)[i] != "" <==> Fills(writes, n, i) {
            FilledIff(writes, n, i);
          }
        }
      } else {
        MaxIdIsLargest(writes, 0);
      }
    }
  }

  /** The writes after the one that names the blank. */
  function Later(vocab: seq<Write<string>>, added: seq<Write<string>>, pad: string): seq<Write<string>>
    requires BlankWrite(vocab, added, pad) < |vocab + added|
  {
    (vocab + added)[BlankWrite(vocab, added, pad) + 1..]
  }

  lemma LaterIsOther(vocab: seq<Write<string>>, added: seq<Write<string>>, pad: string, j: nat)
    requires BlankWrite(vocab, added, pad) < j < |vocab + added|
    ensures (vocab + added)[j].value != pad
  {
    if j < |vocab| {
      assert vocab[j].value != pad;
    } else {
      assert added[j - |vocab|].value != pad;
    }
  }

  /** The blank id's row holds the pad token exactly when no later write hits it. */
  lemma BlankRowIff(vocab: seq<Write<string>>, added: seq<Write<string>>, pad: string)
    requires Read(vocab, added, pad).Table?
    ensures var r := Read(vocab, added, pad);
            InRange(r.blankId, |r.tokens|) &&
            (r.tokens[Slot(r.blankId, |r.tokens|)] == pad <==>
               forall w :: w in Later(vocab, added, pad) ==>
                 InRange(w.id, |r.tokens|) && Slot(w.id, |r.tokens|) != Slot(r.blankId, |r.tokens|))
  {
    var r, writes, k := Read(vocab, added, pad), vocab + added, BlankWrite(vocab, added, pad);
    var n, later := |r.tokens|, Later(vocab, added, pad);
    assert InRange(writes[k].id, n);
    var slot := Slot(r.blankId, n);
    LastWriterWins(n, "", writes, slot);
    var last := LastWriter(n, writes, slot);
    assert k <= last < |writes|;
    if last > k {
      assert later[last - k - 1] == writes[last];
      LaterIsOther(vocab, added, pad, last);
    } else {
      forall w | w in later ensures InRange(w.id, n) && Slot(w.id, n) != slot {
        var j :| 0 <= j < |later| && later[j] == w;
        assert writes[k + 1 + j] == w;
        assert InRange(writes[k + 1 + j].id, n);
      }
    }
  }
}
