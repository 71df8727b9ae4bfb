/** A SentencePiece vocabulary rebuilt from tokenizer.json: which files are accepted,
    what acceptance guarantees, and the payload extracted from the result. */
module BpeVocabulary {
  import opened PythonTables
  import opened Sequences
  import opened Sorting

  /** What the loader reads of tokenizer.json. Keys of `vocab` are distinct, as in any
      parsed object. */
  datatype TokenizerJson = TokenizerJson(isBpe: bool, vocab: seq<Write<string>>, unkPiece: string, addedIds: seq<int>)

  ghost predicate IsObject(vocab: seq<Write<string>>) {
    forall i, j :: 0 <= i < j < |vocab| ==> vocab[i].value != vocab[j].value
  }

  datatype Error = NotBpe | IndexOutOfRange | NotContiguous | AddedNotAPrefix | NoUnknownPiece

  datatype Vocabulary = Vocabulary(pieces: seq<string>, firstMerged: nat, unk: int)

  datatype Loaded = Accepted(vocabulary: Vocabulary) | Rejected(error: Error)

  datatype Piece = Absent | Present(text: string)

  function Pieces(vocab: seq<Write<string>>): seq<Write<Piece>> {
    seq(|vocab|, k requires 0 <= k < |vocab| => Write(vocab[k].id, Present(vocab[k].value)))
  }

  predicate TableAccepted(vocab: seq<Write<string>>) {
    var n := |vocab|;
    AllInRange(Pieces(vocab), n) && forall i :: 0 <= i < n ==> Filled(n, Absent, Pieces(vocab))[i].Present?
  }

  function Added(addedIds: seq<int>, blankId: int): seq<int> {
    if addedIds == [] then []
    else
      var last := addedIds[|addedIds| - 1];
      Added(addedIds[..|addedIds| - 1], blankId) + (if last != blankId then [last] else [])
  }

  function Itself(): int -> int {
    (i: int) => i
  }

  predicate IsPrefix(ids: seq<int>) {
    StableSort(Itself(), ids) == seq(|ids|, i => i)
  }

  function UnkId(vocab: seq<Write<string>>, piece: string): (k: nat)
    ensures k <= |vocab| && (k < |vocab| ==> vocab[k].value == piece)
  {
    if vocab == [] then 0
    else if vocab[|vocab| - 1].value == piece then |vocab| - 1
    else
      var k := UnkId(vocab[..|vocab| - 1], piece);
      if k < |vocab| - 1 then k else |vocab|
  }

  function Load(tok: TokenizerJson, blankId: int): Loaded {
    if !tok.isBpe then Rejected(NotBpe)
    else if !AllInRange(Pieces(tok.vocab), |tok.vocab|) then Rejected(IndexOutOfRange)
    else if !TableAccepted(tok.vocab) then Rejected(NotContiguous)
    else if !IsPrefix(Added(tok.addedIds, blankId)) then Rejected(AddedNotAPrefix)
    else if UnkId(tok.vocab, tok.unkPiece) == |tok.vocab| then Rejected(NoUnknownPiece)
    else
      var table := Filled(|tok.vocab|, Absent, Pieces(tok.vocab));
      Accepted(Vocabulary(seq(|table|, i requires 0 <= i < |table| => if table[i].Present? then table[i].text else ""),
                          |Added(tok.addedIds, blankId)|, tok.vocab[UnkId(tok.vocab, tok.unkPiece)].id))
  }

  // ----- What acceptance means -----

  ghost predicate HasNegative(vocab: seq<Write<string>>) {
    exists k :: 0 <= k < |vocab| && vocab[k].id < 0
  }

  /** The ids are exactly 0 to n - 1, each once. */
  ghost predicate IdsAreBijection(vocab: seq<Write<string>>) {
    && (forall k :: 0 <= k < |vocab| ==> 0 <= vocab[k].id < |vocab|)
    && (forall j, k :: 0 <= j < k < |vocab| ==> vocab[j].id != vocab[k].id)
  }

  /** The table check says: the ids, negative ones counted from the end, are distinct
      and in range. */
  lemma TableAcceptedIff(vocab: seq<Write<string>>)
    ensures TableAccepted(vocab) <==>
            AllInRange(Pieces(vocab), |vocab|) && Distinct(Slots(Pieces(vocab), |vocab|))
  {
    var n, ws := |vocab|, Pieces(vocab);
    if AllInRange(ws, n) {
      NoHoleIff(ws);
      forall i: nat | i < n ensures Filled(n, Absent, ws)[i].Present? <==> LastWriter(n, ws, i) < n {
        LastWriterWins(n, Absent, ws, i);
      }
    }
  }

  /** An accepted table gives every piece back at its own slot, and nothing else. */
  lemma {:induction false} AcceptedInverts(vocab: seq<Write<string>>, k: nat)
    requires TableAccepted(vocab) && k < |vocab|
    ensures InRange(vocab[k].id, |vocab|)
    ensures Filled(|vocab|, Absent, Pieces(vocab))[Slot(vocab[k].id, |vocab|)] == Present(vocab[k].value)
  {
    var n, ws := |vocab|, Pieces(vocab);
    TableAcceptedIff(vocab);
    assert InRange(ws[k].id, n);
    var slot := Slot(ws[k].id, n);
    LastWriterWins(n, Absent, ws, slot);
    var j := LastWriter(n, ws, slot);
    assert Slots(ws, n)[k] == slot && Slots(ws, n)[j] == slot;
    assert j == k;
  }

  /** The ids of a file are a bijection onto 0..n-1 exactly when the check accepts it
      and no id is negative. */
  lemma BijectionIff(vocab: seq<Write<string>>)
    ensures IdsAreBijection(vocab) <==> TableAccepted(vocab) && !HasNegative(vocab)
  {
    var n, ws := |vocab|, Pieces(vocab);
    TableAcceptedIff(vocab);
    assert forall k :: 0 <= k < n ==> ws[k].id == vocab[k].id;
    if IdsAreBijection(vocab) {
      assert AllInRange(ws, n);
      assert Distinct(Slots(ws, n));
    }
    if TableAccepted(vocab) && !HasNegative(vocab) {
      forall j, k | 0 <= j < k < n ensures vocab[j].id != vocab[k].id && 0 <= vocab[j].id < n && 0 <= vocab[k].id < n {
        assert Slots(ws, n)[j] != Slots(ws, n)[k];
        assert InRange(ws[j].id, n) && InRange(ws[k].id, n);
      }
      if n == 1 {
        assert InRange(ws[0].id, n);
      }
    }
  }

  /** Without the second condition it fails: the check accepts an id of -1. */
  lemma NegativeIdAccepted()
    ensures var vocab := [Write(0, "a"), Write(-1, "b")];
            TableAccepted(vocab) && !IdsAreBijection(vocab) && Filled(2, Absent, Pieces(vocab))[1] == Present("b")
  {
    var vocab := [Write(0, "a"), Write(-1, "b")];
    var ws := Pieces(vocab);
    assert AllInRange(ws, 2);
    assert Slots(ws, 2)[0] == 0 && Slots(ws, 2)[1] == 1;
    TableAcceptedIff(vocab);
    AcceptedInverts(vocab, 1);
    assert vocab[1].id < 0;
  }

  /** What a load delivers: one piece per vocabulary entry, found at its id; the added
      ids are exactly the first ones. */
  lemma {:induction false} LoadInvertsVocabulary(tok: TokenizerJson, blankId: int, k: nat)
    requires Load(tok, blankId).Accepted? && k < |tok.vocab|
    ensures var v, e := Load(tok, blankId).vocabulary, tok.vocab[k];
            |v.pieces| == |tok.vocab| && InRange(e.id, |v.pieces|) && v.pieces[Slot(e.id, |v.pieces|)] == e.value
    ensures var v := Load(tok, blankId).vocabulary;
            InRange(v.unk, |v.pieces|) && v.pieces[Slot(v.unk, |v.pieces|)] == tok.unkPiece
  {
    AcceptedInverts(tok.vocab, k);
    AcceptedInverts(tok.vocab, UnkId(tok.vocab, tok.unkPiece));
  }

  ghost predicate PiecesDistinct(v: Vocabulary) {
    forall i, j :: 0 <= i < j < |v.pieces| ==> v.pieces[i] != v.pieces[j]
  }

  /** The entry that row i of an accepted table came from. */
  lemma RowComesFrom(tok: TokenizerJson, blankId: int, i: nat) returns (k: nat)
    requires Load(tok, blankId).Accepted? && i < |tok.vocab|
    ensures k < |tok.vocab| && InRange(tok.vocab[k].id, |tok.vocab|) && Slot(tok.vocab[k].id, |tok.vocab|) == i
    ensures Load(tok, blankId).vocabulary.pieces[i] == tok.vocab[k].value
  {
    var n, ws := |tok.vocab|, Pieces(tok.vocab);
    LastWriterWins(n, Absent, ws, i);
    k := LastWriter(n, ws, i);
    assert Filled(n, Absent, ws)[i].Present?;
    LoadInvertsVocabulary(tok, blankId, k);
  }

  /** No text appears in two rows of an accepted table, as is needed to read ids back
      from texts, exactly because the vocabulary is an object and repeats no key. */
  lemma PiecesDistinctIff(tok: TokenizerJson, blankId: int)
    requires Load(tok, blankId).Accepted?
    ensures PiecesDistinct(Load(tok, blankId).vocabulary) <==> IsObject(tok.vocab)
  {
    var v, n := Load(tok, blankId).vocabulary, |tok.vocab|;
    if IsObject(tok.vocab) {
      forall i, j | 0 <= i < j < n ensures v.pieces[i] != v.pieces[j] {
        var k := RowComesFrom(tok, blankId, i);
        var l := RowComesFrom(tok, blankId, j);
        assert tok.vocab[k].value != tok.vocab[l].value;
      }
    }
    if PiecesDistinct(v) {
      TableAcceptedIff(tok.vocab);
      forall i, j | 0 <= i < j < n ensures tok.vocab[i].value != tok.vocab[j].value {
        LoadInvertsVocabulary(tok, blankId, i);
        LoadInvertsVocabulary(tok, blankId, j);
        var slots := Slots(Pieces(tok.vocab), n);
        assert slots[i] != slots[j];
      }
    }
  }

  lemma AddedIdsAreFirst(ids: seq<int>)
    requires IsPrefix(ids)
    ensures forall i :: 0 <= i < |ids| <==> i in ids
  {
    var s := StableSort(Itself(), ids);
    StableSortIsStable(Itself(), ids);
    forall i ensures 0 <= i < |ids| <==> i in ids {
      assert i in ids <==> i in multiset(ids);
      assert i in s <==> i in multiset(s);
      if 0 <= i < |ids| {
        assert s[i] == i;
      }
    }
  }

  // ----- Which files are accepted -----

  lemma {:induction false} AddedMembers(ids: seq<int>, blankId: int)
    ensures forall id :: id in Added(ids, blankId) <==> id in ids && id != blankId
  {
    if ids != [] {
      AddedMembers(ids[..|ids| - 1], blankId);
      assert ids == ids[..|ids| - 1] + [ids[|ids| - 1]];
    }
  }

  /** The first merged piece is the one behind the added tokens other than the blank. */
  lemma FirstMergedIs(tok: TokenizerJson, blankId: int)
    requires Load(tok, blankId).Accepted?
    ensures forall id :: 0 <= id < Load(tok, blankId).vocabulary.firstMerged <==> id in tok.addedIds && id != blankId
  {
    AddedMembers(tok.addedIds, blankId);
    AddedIdsAreFirst(Added(tok.addedIds, blankId));
  }

  lemma DistinctByCount(xs: seq<int>)
    ensures Distinct(xs) <==> forall x :: multiset(xs)[x] <= 1
  {
    if Distinct(xs) {
      forall x ensures multiset(xs)[x] <= 1 {
        CountOfDistinct(xs, x);
      }
    } else {
      var i, j :| 0 <= i < j < |xs| && xs[i] == xs[j];
      assert xs == xs[..j] + [xs[j]] + xs[j + 1..];
      assert xs[..j][i] == xs[j];
      assert multiset(xs)[xs[j]] >= 2;
    }
  }

  lemma {:induction false} CountOfDistinct(xs: seq<int>, x: int)
    requires Distinct(xs)
    ensures multiset(xs)[x] <= 1 && (x !in xs ==> multiset(xs)[x] == 0)
  {
    if xs != [] {
      var front, last := xs[..|xs| - 1], xs[|xs| - 1];
      assert xs == front + [last];
      assert last !in front;
      CountOfDistinct(front, x);
    }
  }

  predicate IncreasesBelow(s: seq<int>, n: nat) {
    (forall j, k :: 0 <= j < k < |s| ==> s[j] < s[k]) && forall j :: 0 <= j < |s| ==> 0 <= s[j] < n
  }

  lemma {:induction false} IncreasingFromBelow(s: seq<int>, i: nat)
    requires i < |s| && IncreasesBelow(s, |s|)
    ensures i <= s[i]
  {
    if i > 0 {
      IncreasingFromBelow(s, i - 1);
    }
  }

  lemma {:induction false} IncreasingFromAbove(s: seq<int>, i: nat)
    requires i < |s| && IncreasesBelow(s, |s|)
    ensures s[i] <= i
    decreases |s| - i
  {
    if i + 1 < |s| {
      IncreasingFromAbove(s, i + 1);
    }
  }

  /** The sorted ids are 0 to n - 1 exactly when they are distinct and below n. */
  lemma PrefixIff(ids: seq<int>)
    ensures IsPrefix(ids) <==> Distinct(ids) && forall i :: 0 <= i < |ids| ==> 0 <= ids[i] < |ids|
  {
    var s := StableSort(Itself(), ids);
    StableSortIsStable(Itself(), ids);
    SortedIds(ids, s);
    DistinctByCount(ids);
    DistinctByCount(s);
    if IsPrefix(ids) {
      AddedIdsAreFirst(ids);
      assert forall i :: 0 <= i < |ids| ==> ids[i] in ids;
    } else if Distinct(ids) && forall i :: 0 <= i < |ids| ==> 0 <= ids[i] < |ids| {
      forall i | 0 <= i < |s| ensures 0 <= s[i] < |s| {
        assert s[i] in multiset(s);
        assert s[i] in multiset(ids);
      }
      forall i | 0 <= i < |s| ensures s[i] == i {
        IncreasingFromBelow(s, i);
        IncreasingFromAbove(s, i);
      }
    }
  }

  lemma SortedIds(ids: seq<int>, s: seq<int>)
    requires s == StableSort(Itself(), ids)
    ensures |s| == |ids| && multiset(s) == multiset(ids) && forall j, k :: 0 <= j < k < |s| ==> s[j] <= s[k]
  {
    StableSortIsStable(Itself(), ids);
    assert |multiset(s)| == |multiset(ids)|;
    forall j, k | 0 <= j < k < |s| ensures s[j] <= s[k] {
      assert Itself()(s[j]) <= Itself()(s[k]);
    }
  }

  predicate HasPiece(vocab: seq<Write<string>>, piece: string) {
    exists k :: 0 <= k < |vocab| && vocab[k].value == piece
  }

  lemma {:induction false} UnkIdFinds(vocab: seq<Write<string>>, piece: string)
    ensures UnkId(vocab, piece) < |vocab| <==> HasPiece(vocab, piece)
  {
    if vocab != [] {
      var front := vocab[..|vocab| - 1];
      UnkIdFinds(front, piece);
      if HasPiece(vocab, piece) {
        var k :| 0 <= k < |vocab| && vocab[k].value == piece;
        assert k < |front| ==> front[k].value == piece;
      }
    }
  }

  /** Ids, negative ones counted from the end, that fill a table of their number. */
  ghost predicate FillTable(vocab: seq<Write<string>>) {
    (forall k :: 0 <= k < |vocab| ==> -|vocab| <= vocab[k].id < |vocab|) &&
    forall j, k :: 0 <= j < k < |vocab| ==>
      vocab[j].id != vocab[k].id && vocab[j].id != vocab[k].id + |vocab| && vocab[j].id + |vocab| != vocab[k].id
  }

  lemma FillTableIff(vocab: seq<Write<string>>)
    ensures FillTable(vocab) <==> TableAccepted(vocab)
  {
    var n, ws := |vocab|, Pieces(vocab);
    TableAcceptedIff(vocab);
    assert forall k :: 0 <= k < n ==> ws[k].id == vocab[k].id;
    if FillTable(vocab) {
      assert AllInRange(ws, n);
      forall j, k | 0 <= j < k < n ensures Slots(ws, n)[j] != Slots(ws, n)[k] {
      }
    }
    if TableAccepted(vocab) {
      forall k | 0 <= k < n ensures -n <= vocab[k].id < n {
        assert InRange(ws[k].id, n);
      }
      forall j, k | 0 <= j < k < n
        ensures vocab[j].id != vocab[k].id && vocab[j].id != vocab[k].id + n && vocab[j].id + n != vocab[k].id
      {
        assert InRange(ws[j].id, n) && InRange(ws[k].id, n);
        assert Slots(ws, n)[j] != Slots(ws, n)[k];
      }
    }
  }

  /** Exactly which files are accepted, and what each refusal means. */
  lemma LoadAcceptedIff(tok: TokenizerJson, blankId: int)
    ensures var r, added := Load(tok, blankId), Added(tok.addedIds, blankId);
            var prefix := Distinct(added) && forall i :: 0 <= i < |added| ==> 0 <= added[i] < |added|;
            && (r == Rejected(NotBpe) <==> !tok.isBpe)
            && (r == Rejected(AddedNotAPrefix) <==> tok.isBpe && FillTable(tok.vocab) && !prefix)
            && (r == Rejected(NoUnknownPiece) <==>
                  tok.isBpe && FillTable(tok.vocab) && prefix && !HasPiece(tok.vocab, tok.unkPiece))
            && (r.Accepted? <==> tok.isBpe && FillTable(tok.vocab) && prefix && HasPiece(tok.vocab, tok.unkPiece))
  {
    FillTableIff(tok.vocab);
    PrefixIff(Added(tok.addedIds, blankId));
    UnkIdFinds(tok.vocab, tok.unkPiece);
  }

  // ----- Scores -----

  function Score(v: Vocabulary, i: nat): real {
    if i < v.firstMerged then 0.0 else -((i - v.firstMerged) as real)
  }

  /** The rebuilt scores order two pieces as their ids do, except that they do not tell
      the pieces up to the first merged one apart. */
  lemma ScoresRecoverOrder(v: Vocabulary, i: nat, j: nat)
    requires i < j
    ensures Score(v, i) > Score(v, j) <==> j > v.firstMerged
    ensures Score(v, i) >= Score(v, j)
    ensures Score(v, j) == if j <= v.firstMerged then 0.0 else (v.firstMerged - j) as real
  {
    if i >= v.firstMerged {
      assert (j - v.firstMerged) as real > (i - v.firstMerged) as real;
    }
  }

  // ----- Language tags -----

  predicate IsLower(c: char) {
    'a' <= c <= 'z'
  }

  predicate IsLetter(c: char) {
    IsLower(c) || 'A' <= c <= 'Z'
  }

  /** '<', two or three lower-case letters, '-', two to four letters, '>'. */
  predicate TagShape(s: string, lang: nat, region: nat) {
    && 2 <= lang <= 3 && 2 <= region <= 4 && |s| == lang + region + 3
    && s[0] == '<' && s[lang + 1] == '-' && s[|s| - 1] == '>'
    && (forall i :: 1 <= i <= lang ==> IsLower(s[i]))
    && (forall i :: lang + 2 <= i < |s| - 1 ==> IsLetter(s[i]))
  }

  // The pattern's end also matches before one final line feed.
  predicate IsLangTag(piece: string) {
    var s := if piece != "" && piece[|piece| - 1] == '\n' then piece[..|piece| - 1] else piece;
    exists lang, region :: 2 <= lang <= 3 && 2 <= region <= 4 && TagShape(s, lang, region)
  }

  predicate AllLower(s: string) {
    forall i :: 0 <= i < |s| ==> IsLower(s[i])
  }

  predicate AllLetters(s: string) {
    forall i :: 0 <= i < |s| ==> IsLetter(s[i])
  }

  /** A language tag, written out: <en-US> and the like, perhaps with one line feed behind. */
  predicate IsTagText(piece: string, lang: string, region: string, end: string) {
    2 <= |lang| <= 3 && AllLower(lang) && 2 <= |region| <= 4 && AllLetters(region) && (end == "" || end == "\n") &&
    piece == "<" + lang + "-" + region + ">" + end
  }

  lemma TagTextHasShape(s: string, lang: string, region: string)
    requires IsTagText(s, lang, region, "")
    ensures TagShape(s, |lang|, |region|)
  {
    assert s == "<" + lang + "-" + region + ">";
    assert forall i :: 1 <= i <= |lang| ==> s[i] == lang[i - 1];
    assert forall i :: |lang| + 2 <= i < |s| - 1 ==> s[i] == region[i - |lang| - 2];
  }

  lemma ShapeIsTagText(s: string, l: nat, r: nat)
    requires TagShape(s, l, r)
    ensures IsTagText(s, s[1..l + 1], s[l + 2..|s| - 1], "")
  {
    assert s == "<" + s[1..l + 1] + "-" + s[l + 2..|s| - 1] + ">" + "";
  }

  lemma TagTextIsTag(piece: string, lang: string, region: string, end: string)
    requires IsTagText(piece, lang, region, end)
    ensures IsLangTag(piece)
  {
    var s := "<" + lang + "-" + region + ">";
    assert s + "" == s && piece == s + end;
    TagTextHasShape(s, lang, region);
    if end == "\n" {
      assert piece[..|piece| - 1] == s;
    } else {
      assert piece[|piece| - 1] == '>';
    }
  }

  /** The pattern recognizes exactly the texts of this form. */
  lemma LangTagIff(piece: string)
    ensures IsLangTag(piece) <==> exists lang, region, end :: IsTagText(piece, lang, region, end)
  {
    var cut := piece != "" && piece[|piece| - 1] == '\n';
    var s := if cut then piece[..|piece| - 1] else piece;
    if IsLangTag(piece) {
      var l, r :| 2 <= l <= 3 && 2 <= r <= 4 && TagShape(s, l, r);
      ShapeIsTagText(s, l, r);
      assert piece == s + (if cut then "\n" else "");
      assert IsTagText(piece, s[1..l + 1], s[l + 2..|s| - 1], if cut then "\n" else "");
    }
    if lang, region, end :| IsTagText(piece, lang, region, end) {
      TagTextIsTag(piece, lang, region, end);
    }
  }

  // ----- The payload -----

  datatype TokenType = Normal | Unknown | Control

  datatype Payload = Payload(tokens: seq<string>, scores: seq<real>, types: seq<TokenType>, unkId: int, blankId: nat)

  function TypeOf(v: Vocabulary, i: nat): TokenType
    requires i < |v.pieces|
  {
    if i == v.unk then Unknown else if IsLangTag(v.pieces[i]) then Control else Normal
  }

  /** A negative unknown id leaves the key out, shown here as -1. */
  method ExtractTokenizer(v: Vocabulary, blankPiece: string) returns (p: Payload)
    ensures p.tokens == v.pieces + [blankPiece] && p.blankId == |v.pieces| && p.tokens[p.blankId] == blankPiece
    ensures |p.scores| == |p.types| == |p.tokens| && p.scores[p.blankId] == 0.0 && p.types[p.blankId] == Control
    ensures forall i :: 0 <= i < |v.pieces| ==> p.scores[i] == Score(v, i) && p.types[i] == TypeOf(v, i)
    ensures p.unkId == if v.unk >= 0 then v.unk else -1
  {
    var n := |v.pieces|;
    var tokens, scores, types := [], [], [];
    for i := 0 to n
      invariant tokens == v.pieces[..i] && |scores| == |types| == i
      invariant forall j :: 0 <= j < i ==> scores[j] == Score(v, j) && types[j] == TypeOf(v, j)
    {
      tokens := tokens + [v.pieces[i]];
      scores := scores + [Score(v, i)];
      types := types + [TypeOf(v, i)];
    }
    assert v.pieces[..n] == v.pieces;
    p := Payload(tokens + [blankPiece], scores + [0.0], types + [Control], if v.unk >= 0 then v.unk else -1, n);
  }

  /** The type of a row by its text: the unknown piece, a language tag, or plain. */
  lemma TypeByText(v: Vocabulary, i: nat)
    requires i < |v.pieces|
    ensures TypeOf(v, i).Unknown? <==> i == v.unk
    ensures TypeOf(v, i).Control? <==>
            i != v.unk && exists lang, region, end :: IsTagText(v.pieces[i], lang, region, end)
    ensures TypeOf(v, i).Normal? <==>
            i != v.unk && forall lang, region, end :: !IsTagText(v.pieces[i], lang, region, end)
  {
    LangTagIff(v.pieces[i]);
  }

  method LoadVocabulary(tok: TokenizerJson, blankId: int) returns (r: Loaded)
    ensures r == Load(tok, blankId)
  {
    if !tok.isBpe {
      return Rejected(NotBpe);
    }
    var n := |tok.vocab|;
    var pieces := new Piece[n](_ => Absent);
    ghost var ws := Pieces(tok.vocab);
    for k := 0 to n
      invariant AllInRange(ws[..k], n) && pieces[..] == Filled(n, Absent, ws[..k])
    {
      assert ws[..k + 1][..k] == ws[..k];
      if !InRange(tok.vocab[k].id, n) {
        assert !InRange(ws[k].id, n);
        return Rejected(IndexOutOfRange);
      }
      pieces[Slot(tok.vocab[k].id, n)] := Present(tok.vocab[k].value);
    }
    assert ws[..n] == ws;
    var texts: seq<string> := [];
    for i := 0 to n
      invariant |texts| == i && forall j :: 0 <= j < i ==> pieces[j].Present? && texts[j] == pieces[j].text
    {
      if pieces[i].Absent? {
        assert Filled(n, Absent, ws)[i].Absent?;
        return Rejected(NotContiguous);
      }
      texts := texts + [pieces[i].text];
    }
    assert TableAccepted(tok.vocab);
    var added := Added(tok.addedIds, blankId);
    if !IsPrefix(added) {
      return Rejected(AddedNotAPrefix);
    }
    var k := UnkId(tok.vocab, tok.unkPiece);
    if k == n {
      return Rejected(NoUnknownPiece);
    }
    r := Accepted(Vocabulary(texts, |added|, tok.vocab[k].id));
  }
}
