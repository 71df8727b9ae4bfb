/** The stable-prefix committer: which raw bytes a successful feed or finalize
    may add to the append-only committed text. */
module StreamText {
  import opened Utf8

  const DEFAULT_AGREEMENT: nat := 3

  // 0 selects the library default.
  function Agreement(n: nat): (r: nat)
    ensures r >= 1
  {
    if n == 0 then DEFAULT_AGREEMENT else n
  }

  function LastN<T>(s: seq<T>, n: nat): seq<T> {
    s[|s| - Min(|s|, n)..]
  }

  lemma WindowSlides<T>(before: seq<T>, x: T, n: nat)
    requires n >= 1
    ensures LastN(LastN(before, n) + [x], n) == LastN(before + [x], n)
  {
  }

  // ----- Generic text agreement -----

  /** Floored common prefix of `front` with every text of the window. */
  function SharedBytes(front: Text, window: seq<Text>): (r: nat)
    ensures r <= |front| && IsBoundary(front, r)
  {
    if window == [] then |front|
    else Min(SharedBytes(front, window[..|window| - 1]), CommonPrefixBytes(front, window[|window| - 1]))
  }

  lemma {:induction false} SharedBytesAreShared(front: Text, window: seq<Text>, k: nat, i: nat)
    requires k <= SharedBytes(front, window) && i < |window|
    ensures front[..k] <= window[i]
  {
    var last := window[|window| - 1];
    if i < |window| - 1 {
      SharedBytesAreShared(front, window[..|window| - 1], k, i);
    } else {
      var common := CommonLength(front, last);
      assert front[..k] == front[..common][..k] == last[..common][..k];
    }
  }

  method ComputeSharedBytes(front: Text, window: seq<Text>) returns (r: nat)
    ensures r == SharedBytes(front, window)
  {
    r := |front|;
    for i := 0 to |window|
      invariant r == SharedBytes(front, window[..i])
    {
      var here := ComputeCommonPrefixBytes(front, window[i]);
      assert window[..i + 1][..i] == window[..i];
      r := Min(r, here);
    }
    assert window[..|window|] == window;
  }

  datatype Candidate = Candidate(bytes: nat, history: seq<Text>)

  /** The prefix of `full` that the last `agreement` hypotheses support. */
  function GenericCandidate(history: seq<Text>, full: Text, agreement: nat): Candidate {
    var n := Agreement(agreement);
    if n <= 1 then Candidate(|full|, history)
    else
      var window := LastN(history + [full], n);
      Candidate(if |window| < n then 0 else FloorBoundary(full, SharedBytes(window[0], window)), window)
  }

  // ----- Family boundary, expressed in token rows -----

  function Concat(texts: seq<Text>): Text {
    if texts == [] then [] else Concat(texts[..|texts| - 1]) + texts[|texts| - 1]
  }

  function Rows(tokens: seq<Text>, n: int): seq<Text> {
    tokens[..if n < 0 then 0 else if n < |tokens| then n else |tokens|]
  }

  const SPACE: Byte := 32

  /** Bytes of `full` covered by the first `n` token texts; a leading space that
      the hypothesis dropped is dropped from the token side too. */
  function TokenPrefixBytes(full: Text, tokens: seq<Text>, n: int): (r: nat)
    ensures r <= |full|
    ensures r > 0 ==>
              var joined := Concat(Rows(tokens, n));
              full[..r] <= joined || (joined != [] && joined[0] == SPACE && full[..r] <= joined[1..])
  {
    if n <= 0 || tokens == [] then 0
    else
      var joined := Concat(Rows(tokens, n));
      if joined <= full then
        assert full[..|joined|] == joined;
        |joined|
      else if joined != [] && joined[0] == SPACE && (full == [] || full[0] != SPACE) then
        var trimmed := joined[1..];
        if trimmed <= full then assert full[..|trimmed|] == trimmed; |trimmed|
        else AgreeingPrefix(full, trimmed)
      else AgreeingPrefix(full, joined)
  }

  function AgreeingPrefix(full: Text, joined: Text): (r: nat)
    ensures r == CommonPrefixBytes(full, joined) && r <= |full| && full[..r] <= joined
  {
    var k := CommonLength(full, joined);
    var r := CommonPrefixBytes(full, joined);
    assert full[..r] == full[..k][..r] == joined[..k][..r];
    r
  }

  method ComputeTokenPrefixBytes(full: Text, tokens: seq<Text>, n: int) returns (r: nat)
    ensures r == TokenPrefixBytes(full, tokens, n)
  {
    if n <= 0 || tokens == [] {
      return 0;
    }
    var capped := if n < |tokens| then n else |tokens|;
    var prefix: Text := [];
    for i := 0 to capped
      invariant prefix == Concat(tokens[..i])
    {
      assert tokens[..i + 1][..i] == tokens[..i];
      prefix := prefix + tokens[i];
    }
    if prefix <= full {
      return |prefix|;
    }
    if prefix != [] && prefix[0] == SPACE && (full == [] || full[0] != SPACE) {
      var normalized := prefix[1..];
      if normalized <= full {
        return |normalized|;
      }
      r := ComputeCommonPrefixBytes(full, normalized);
      return;
    }
    r := ComputeCommonPrefixBytes(full, prefix);
  }

  lemma {:induction false} ConcatJoins(a: seq<Text>, b: seq<Text>)
    ensures Concat(a + b) == Concat(a) + Concat(b)
    ensures forall t: Text :: Concat([t]) == t
  {
    assert forall t: Text :: [t][..0] == [] && Concat([t]) == Concat([]) + t;
    if b == [] {
      assert a + b == a;
    } else {
      ConcatJoins(a, b[..|b| - 1]);
      assert (a + b)[..|a + b| - 1] == a + b[..|b| - 1];
    }
  }

  /** The text that the first n token rows stand for, without the leading space that the
      hypothesis dropped. */
  function RowsText(full: Text, tokens: seq<Text>, n: int): Text {
    var joined := Concat(if n <= 0 then [] else if n < |tokens| then tokens[..n] else tokens);
    if joined <= full || joined == [] || joined[0] != SPACE || (full != [] && full[0] == SPACE) then joined
    else joined[1..]
  }

  /** What a number of token rows is worth, whatever the count: all of their text when it
      is a prefix of the hypothesis, else the most whole code points that agree with it. */
  lemma TokenPrefixIs(full: Text, tokens: seq<Text>, n: int)
    ensures var r, wanted := TokenPrefixBytes(full, tokens, n), RowsText(full, tokens, n);
            r <= |full| && full[..r] <= wanted && (wanted <= full ==> full[..r] == wanted) &&
            (!(wanted <= full) ==>
               IsBoundary(full, r) && forall k :: IsBoundary(full, k) && full[..k] <= wanted ==> k <= r)
  {
    var wanted := RowsText(full, tokens, n);
    if n > 0 && tokens != [] {
      assert Rows(tokens, n) == if n < |tokens| then tokens[..n] else tokens;
      if wanted <= full {
        assert full[..|wanted|] == wanted;
      } else {
        AgreesMost(full, wanted);
      }
    } else {
      assert tokens == [] ==> Concat(tokens) == [];
    }
  }

  lemma AgreesMost(full: Text, wanted: Text)
    ensures forall k :: IsBoundary(full, k) && full[..k] <= wanted ==> k <= CommonPrefixBytes(full, wanted)
  {
    forall k | IsBoundary(full, k) && full[..k] <= wanted ensures k <= CommonPrefixBytes(full, wanted) {
      assert wanted[..k] == full[..k];
      CommonLengthIs(full, wanted, k);
    }
  }

  predicate IsCut(full: Text, wanted: Text, p: Text) {
    p <= full && p <= wanted && IsBoundary(full, |p|)
  }

  /** The most of a text that a hypothesis begins with, cut at a code point start. */
  ghost predicate GreatestCut(full: Text, wanted: Text, p: Text) {
    IsCut(full, wanted, p) && forall q :: IsCut(full, wanted, q) ==> q <= p
  }

  lemma CutAt(full: Text, wanted: Text, r: nat)
    requires r <= |full| && full[..r] <= wanted
    requires forall k :: IsBoundary(full, k) && full[..k] <= wanted ==> k <= r
    ensures GreatestCut(full, wanted, full[..FloorBoundary(full, r)])
  {
    var p := full[..FloorBoundary(full, r)];
    assert p == full[..r][..|p|];
    forall q | IsCut(full, wanted, q) ensures q <= p {
      assert full[..|q|] == q;
      assert p[..|q|] == q;
    }
  }

  /** After the floor that every append applies, token rows offer the most of their text
      that the hypothesis begins with. */
  lemma TokenRowsOffer(full: Text, tokens: seq<Text>, n: int)
    ensures var r := TokenPrefixBytes(full, tokens, n);
            GreatestCut(full, RowsText(full, tokens, n), full[..FloorBoundary(full, Min(r, |full|))])
  {
    var r, wanted := TokenPrefixBytes(full, tokens, n), RowsText(full, tokens, n);
    TokenPrefixIs(full, tokens, n);
    forall k | IsBoundary(full, k) && full[..k] <= wanted ensures k <= r {
      assert wanted <= full ==> r == |wanted|;
    }
    CutAt(full, wanted, r);
  }

  // ----- The committed buffer -----

  /** `start` is the raw byte offset at which the tentative suffix begins. */
  datatype Committed = Committed(text: Text, start: nat)

  function AppendCommitted(raw: Text, c: Committed, candidateBytes: nat): Committed {
    var oldBoundary := FloorBoundary(raw, Min(c.start, |raw|));
    var candidate := FloorBoundary(raw, Min(candidateBytes, |raw|));
    if candidate <= oldBoundary || oldBoundary != |c.text| || raw[..oldBoundary] != c.text then c
    else Committed(c.text + raw[oldBoundary..candidate], candidate)
  }

  function FinalizeCommitted(raw: Text, onFinalize: bool, c: Committed): Committed {
    if onFinalize || c.text == [] then Committed(raw, |raw|)
    else if !(c.text <= raw) then c.(start := |raw|)
    else Committed(c.text + raw[|c.text|..], |raw|)
  }

  function Tentative(raw: Text, start: nat): Text {
    raw[FloorBoundary(raw, Min(start, |raw|))..]
  }

  lemma PrefixOfPrefix(raw: Text, b: nat, k: nat)
    requires b <= k <= |raw|
    ensures raw[..b] + raw[b..k] == raw[..k] && raw[..k][..b] == raw[..b]
  {
  }

  /** While the offset and the committed length agree, an append either does
      nothing or installs the candidate prefix of the current hypothesis. */
  lemma AppendInstallsPrefix(raw: Text, c: Committed, candidateBytes: nat)
    requires c.start == |c.text|
    ensures var k := FloorBoundary(raw, Min(candidateBytes, |raw|));
            AppendCommitted(raw, c, candidateBytes) ==
            (if c.text < raw[..k] && IsBoundary(raw, |c.text|) then Committed(raw[..k], k) else c)
  {
    var k := FloorBoundary(raw, Min(candidateBytes, |raw|));
    var b := FloorBoundary(raw, Min(c.start, |raw|));
    if |c.text| < k {
      PrefixOfPrefix(raw, |c.text|, k);
      assert c.text < raw[..k] <==> raw[..|c.text|] == c.text;
      assert b == |c.text| <==> IsBoundary(raw, |c.text|);
    }
  }

  /** What the display contract promises, and exactly when it holds. */
  lemma DisplayReconstructs(committed: Text, raw: Text)
    ensures committed + Tentative(raw, |committed|) == raw <==>
            committed <= raw && IsBoundary(raw, |committed|)
  {
    var b := FloorBoundary(raw, Min(|committed|, |raw|));
    var shown := committed + raw[b..];
    if shown == raw {
      assert shown[..|committed|] == committed;
    }
    if committed <= raw && IsBoundary(raw, |committed|) {
      assert raw == raw[..b] + raw[b..];
    }
  }

  // ----- One stream of hypotheses -----

  datatype TextState = TextState(committed: Committed, history: seq<Text>)

  const EMPTY_TEXT := TextState(Committed([], 0), [])

  /** The text part of a successful feed under the generic implementation. */
  function FeedText(s: TextState, raw: Text, agreement: nat): TextState {
    var cand := GenericCandidate(s.history, raw, agreement);
    TextState(AppendCommitted(raw, s.committed, cand.bytes), cand.history)
  }

  function FeedAll(agreement: nat, hs: seq<Text>): TextState {
    if hs == [] then EMPTY_TEXT
    else FeedText(FeedAll(agreement, hs[..|hs| - 1]), hs[|hs| - 1], agreement)
  }

  ghost predicate AllWellFormed(hs: seq<Text>) {
    forall i :: 0 <= i < |hs| ==> WellFormed(hs[i])
  }

  /** `p` is a whole-code-point prefix of every hypothesis of the window. */
  ghost predicate Agreed(window: seq<Text>, p: Text) {
    forall i :: 0 <= i < |window| ==> p <= window[i] && IsBoundary(window[i], |p|)
  }

  ghost predicate GreatestAgreed(window: seq<Text>, p: Text) {
    Agreed(window, p) && forall q :: Agreed(window, q) ==> q <= p
  }

  ghost function Stable(window: seq<Text>): Text {
    if exists p :: GreatestAgreed(window, p) then var p :| GreatestAgreed(window, p); p else []
  }

  /** The documented rule, stated over the whole hypothesis list: once `n`
      consecutive hypotheses agree on a prefix that extends what is committed,
      that prefix becomes the committed text. */
  ghost function Declared(n: nat, hs: seq<Text>): Text
    decreases hs
  {
    if hs == [] then []
    else
      var c := Declared(n, hs[..|hs| - 1]);
      var p := Stable(LastN(hs, n));
      if |hs| >= n && c < p then p else c
  }

  lemma {:induction false} SharedBytesIsMaximal(front: Text, window: seq<Text>, k: nat)
    requires IsBoundary(front, k)
    requires forall i :: 0 <= i < |window| ==> front[..k] <= window[i]
    ensures k <= SharedBytes(front, window)
  {
    if window != [] {
      var last := window[|window| - 1];
      SharedBytesIsMaximal(front, window[..|window| - 1], k);
      assert last[..k] == front[..k];
      CommonLengthIs(front, last, k);
    }
  }

  /** `p` is shared by all texts and ends at a code point start of the first and last. */
  ghost predicate SharedAndCut(window: seq<Text>, p: Text)
    requires window != []
  {
    (forall i :: 0 <= i < |window| ==> p <= window[i]) &&
    IsBoundary(window[0], |p|) && IsBoundary(window[|window| - 1], |p|)
  }

  /** For any bytes at all: what the window loop and the floor yield is the longest prefix
      of the newest text that all texts share, among those cut at a code point start of
      the oldest and the newest. */
  lemma WindowFindsGreatest(window: seq<Text>)
    requires window != []
    ensures var full := window[|window| - 1];
            var k := FloorBoundary(full, SharedBytes(window[0], window));
            k <= |full| && SharedAndCut(window, full[..k]) &&
            forall q :: SharedAndCut(window, q) ==> q <= full[..k]
  {
    var full, front := window[|window| - 1], window[0];
    var r := SharedBytes(front, window);
    forall i | 0 <= i < |window| ensures front[..r] <= window[i] {
      SharedBytesAreShared(front, window, r, i);
    }
    var k := FloorBoundary(full, r);
    assert full[..k] == front[..r][..k] == front[..k];
    assert k < r ==> front[..r][k] == full[k];
    forall q | SharedAndCut(window, q) ensures q <= full[..k] {
      assert q <= front && q <= full;
      assert front[..|q|] == q == full[..|q|];
      SharedBytesIsMaximal(front, window, |q|);
      assert full[..k][..|q|] == q;
    }
  }

  lemma CutIsAgreed(window: seq<Text>, p: Text)
    requires window != [] && AllWellFormed(window) && SharedAndCut(window, p)
    ensures Agreed(window, p) && WellFormed(p)
  {
    assert window[0][..|p|] == p;
    CutAtBoundary(window[0], |p|);
    forall i | 0 <= i < |window| ensures p <= window[i] && IsBoundary(window[i], |p|) {
      PrefixEndsAtBoundary(p, window[i]);
    }
  }

  lemma AgreedIsCut(window: seq<Text>, p: Text)
    requires window != [] && Agreed(window, p)
    ensures SharedAndCut(window, p)
  {
  }

  /** With well-formed texts that is the greatest prefix they agree on. */
  lemma WellFormedWindowAgrees(window: seq<Text>)
    requires window != [] && AllWellFormed(window)
    ensures var full := window[|window| - 1];
            var k := FloorBoundary(full, SharedBytes(window[0], window));
            k <= |full| && GreatestAgreed(window, full[..k]) && WellFormed(full[..k])
  {
    WindowFindsGreatest(window);
    var full := window[|window| - 1];
    var p := full[..FloorBoundary(full, SharedBytes(window[0], window))];
    CutIsAgreed(window, p);
    forall q | Agreed(window, q) ensures q <= p {
      AgreedIsCut(window, q);
    }
  }

  lemma StableIs(window: seq<Text>, p: Text)
    requires GreatestAgreed(window, p)
    ensures Stable(window) == p
  {
    var q := Stable(window);
    assert GreatestAgreed(window, q);
    assert p <= q && q <= p;
  }

  lemma FeedAllStep(agreement: nat, before: seq<Text>, raw: Text)
    ensures FeedAll(agreement, before + [raw]) == FeedText(FeedAll(agreement, before), raw, agreement)
  {
    assert (before + [raw])[..|before|] == before;
  }

  lemma HistoryStep(s: TextState, raw: Text, agreement: nat)
    ensures FeedText(s, raw, agreement).history ==
            if Agreement(agreement) <= 1 then s.history else LastN(s.history + [raw], Agreement(agreement))
  {
  }

  /** The history is the window of the newest hypotheses; agreement 1 keeps none. */
  ghost predicate Windowed(agreement: nat, hs: seq<Text>) {
    FeedAll(agreement, hs).history == if Agreement(agreement) <= 1 then [] else LastN(hs, Agreement(agreement))
  }

  lemma WindowedExtends(agreement: nat, before: seq<Text>, raw: Text, hs: seq<Text>)
    requires Windowed(agreement, before) && hs == before + [raw]
    ensures Windowed(agreement, hs)
  {
    FeedAllStep(agreement, before, raw);
    HistoryStep(FeedAll(agreement, before), raw, agreement);
    WindowSlides(before, raw, Agreement(agreement));
  }

  lemma WindowedStarts(agreement: nat)
    ensures Windowed(agreement, [])
  {
  }

  lemma {:induction false} HistoryIsWindow(agreement: nat, hs: seq<Text>)
    ensures Windowed(agreement, hs)
  {
    if hs == [] {
      WindowedStarts(agreement);
    } else {
      HistoryIsWindow(agreement, hs[..|hs| - 1]);
      WindowedExtends(agreement, hs[..|hs| - 1], hs[|hs| - 1], hs);
    }
  }

  lemma {:induction false} OffsetIsCommittedLength(agreement: nat, hs: seq<Text>)
    ensures var c := FeedAll(agreement, hs).committed; c.start == |c.text|
  {
    if hs != [] {
      var s := FeedAll(agreement, hs[..|hs| - 1]);
      OffsetIsCommittedLength(agreement, hs[..|hs| - 1]);
      var raw := hs[|hs| - 1];
      AppendInstallsPrefix(raw, s.committed, GenericCandidate(s.history, raw, agreement).bytes);
    }
  }

  /** The bytes of the newest hypothesis that its last `n` predecessors
      (itself included) support, over the whole history. */
  function Supported(n: nat, hs: seq<Text>): nat
    requires n >= 1 && hs != []
  {
    var raw := hs[|hs| - 1];
    var window := LastN(hs, n);
    if n == 1 then |raw|
    else if |window| < n then 0
    else FloorBoundary(raw, SharedBytes(window[0], window))
  }

  lemma FeedSeesWindow(agreement: nat, before: seq<Text>, raw: Text)
    ensures GenericCandidate(FeedAll(agreement, before).history, raw, agreement).bytes ==
            Supported(Agreement(agreement), before + [raw])
  {
    HistoryIsWindow(agreement, before);
    WindowSlides(before, raw, Agreement(agreement));
  }

  /** One feed, without the window and the offset. */
  lemma CommitStep(agreement: nat, before: seq<Text>, raw: Text)
    ensures var c := FeedAll(agreement, before).committed;
            var k := FloorBoundary(raw, Min(Supported(Agreement(agreement), before + [raw]), |raw|));
            FeedAll(agreement, before + [raw]).committed ==
            (if c.text < raw[..k] && IsBoundary(raw, |c.text|) then Committed(raw[..k], k) else c)
  {
    var s := FeedAll(agreement, before);
    FeedAllStep(agreement, before, raw);
    OffsetIsCommittedLength(agreement, before);
    FeedSeesWindow(agreement, before, raw);
    AppendInstallsPrefix(raw, s.committed, GenericCandidate(s.history, raw, agreement).bytes);
  }

  /** The supported bytes are exactly the greatest agreed prefix. */
  lemma SupportedIsStable(n: nat, hs: seq<Text>)
    requires n >= 1 && hs != [] && AllWellFormed(hs)
    ensures var raw := hs[|hs| - 1];
            var k := Supported(n, hs);
            k <= |raw| && IsBoundary(raw, k) && WellFormed(raw[..k]) &&
            raw[..k] == if |hs| >= n then Stable(LastN(hs, n)) else []
  {
    var window := LastN(hs, n);
    var raw := hs[|hs| - 1];
    if |window| == n {
      WellFormedWindowAgrees(window);
      var k := FloorBoundary(raw, SharedBytes(window[0], window));
      StableIs(window, raw[..k]);
      if n == 1 {
        assert Agreed(window, raw);
        assert raw <= raw[..k];
        assert raw[..|raw|] == raw;
      }
    }
  }

  /** The incremental committer refines the declared rule, whatever the stream. */
  lemma {:induction false} IncrementalRefinesDeclared(agreement: nat, hs: seq<Text>)
    requires AllWellFormed(hs)
    ensures FeedAll(agreement, hs).committed.text == Declared(Agreement(agreement), hs)
    ensures WellFormed(FeedAll(agreement, hs).committed.text)
  {
    if hs != [] {
      var n := Agreement(agreement);
      var before, raw := hs[..|hs| - 1], hs[|hs| - 1];
      var c := FeedAll(agreement, before).committed.text;
      assert hs == before + [raw];
      IncrementalRefinesDeclared(agreement, before);
      CommitStep(agreement, before, raw);
      SupportedIsStable(n, hs);
      if c < raw[..Supported(n, hs)] {
        assert c <= raw;
        PrefixEndsAtBoundary(c, raw);
      }
    }
  }

  /** For arbitrary bytes: the supported prefix is shared by the whole window. */
  lemma SupportedIsShared(n: nat, hs: seq<Text>, k: nat)
    requires n >= 1 && hs != [] && k <= |hs[|hs| - 1]| && k <= Supported(n, hs)
    ensures k == 0 || (n <= |hs| && forall i :: |hs| - n <= i < |hs| ==> hs[|hs| - 1][..k] <= hs[i])
  {
    var window := LastN(hs, n);
    if k > 0 && n >= 2 {
      SharedBytesAreShared(window[0], window, k, n - 1);
      forall i | |hs| - n <= i < |hs| ensures hs[|hs| - 1][..k] <= hs[i] {
        SharedBytesAreShared(window[0], window, k, i - (|hs| - n));
        assert hs[i] == window[i - (|hs| - n)];
      }
    }
  }

  /** Everything committed was, at some feed, a prefix shared by `n` consecutive
      hypotheses. */
  lemma {:induction false} CommittedWasShared(agreement: nat, hs: seq<Text>)
    returns (t: nat)
    ensures var c := FeedAll(agreement, hs).committed.text;
            var n := Agreement(agreement);
            c == [] || (n <= t <= |hs| && forall i :: t - n <= i < t ==> c <= hs[i])
  {
    t := 0;
    if hs != [] {
      var n := Agreement(agreement);
      var before, raw := hs[..|hs| - 1], hs[|hs| - 1];
      assert hs == before + [raw];
      t := CommittedWasShared(agreement, before);
      CommitStep(agreement, before, raw);
      if FeedAll(agreement, hs).committed != FeedAll(agreement, before).committed {
        t := |hs|;
        SupportedIsShared(n, hs, FloorBoundary(raw, Min(Supported(n, hs), |raw|)));
      }
    }
  }

  // ----- A larger agreement commits later -----

  function CommittedText(agreement: nat, hs: seq<Text>): Text {
    FeedAll(agreement, hs).committed.text
  }

  /** The prefix of the newest hypothesis that a feed offers to the committed text. */
  function Offered(agreement: nat, hs: seq<Text>): Text
    requires hs != []
  {
    var raw := hs[|hs| - 1];
    raw[..FloorBoundary(raw, Min(Supported(Agreement(agreement), hs), |raw|))]
  }

  /** Feeding `raw` makes the offered prefix the committed text. */
  predicate Takes(agreement: nat, before: seq<Text>, raw: Text) {
    var c := CommittedText(agreement, before);
    c < Offered(agreement, before + [raw]) && IsBoundary(raw, |c|)
  }

  lemma TakesOrKeeps(agreement: nat, before: seq<Text>, raw: Text)
    ensures CommittedText(agreement, before + [raw]) ==
            if Takes(agreement, before, raw) then Offered(agreement, before + [raw])
            else CommittedText(agreement, before)
  {
    CommitStep(agreement, before, raw);
  }

  /** The run with agreement `m` is behind the one with agreement `n`. */
  predicate Behind(m: nat, n: nat, hs: seq<Text>) {
    CommittedText(m, hs) <= CommittedText(n, hs)
  }

  /** What the `m`-run takes from `raw`, if anything, the `n`-run already holds; or it
      continues what the `n`-run holds, whose end is a code point start of `raw`, and the
      `n`-run is offered as much. */
  predicate Follows(m: nat, n: nat, before: seq<Text>, raw: Text) {
    Takes(m, before, raw) ==>
      var p, c := Offered(m, before + [raw]), CommittedText(n, before);
      p <= c || (c < p && IsBoundary(raw, |c|) && |p| <= |Offered(n, before + [raw])|)
  }

  lemma PrefixesOfOne(a: Text, b: Text, s: Text)
    requires a <= s && b <= s
    ensures a <= b <==> |a| <= |b|
  {
  }

  /** One feed, for any bytes and any two agreements. */
  lemma BehindStep(m: nat, n: nat, before: seq<Text>, raw: Text)
    requires Behind(m, n, before)
    ensures Behind(m, n, before + [raw]) <==> Follows(m, n, before, raw)
  {
    TakesOrKeeps(m, before, raw);
    TakesOrKeeps(n, before, raw);
    PrefixesOfOne(Offered(m, before + [raw]), Offered(n, before + [raw]), raw);
    if Takes(n, before, raw) {
      PrefixesOfOne(CommittedText(n, before), Offered(m, before + [raw]), raw);
    }
  }

  ghost predicate AtEveryMoment(p: seq<Text> -> bool, hs: seq<Text>) {
    forall t :: 0 <= t <= |hs| ==> p(hs[..t])
  }

  ghost predicate AtEveryFeed(p: (seq<Text>, Text) -> bool, hs: seq<Text>) {
    forall t :: 0 <= t < |hs| ==> p(hs[..t], hs[t])
  }

  lemma OneMoreMoment(p: seq<Text> -> bool, before: seq<Text>, raw: Text)
    ensures AtEveryMoment(p, before + [raw]) <==> AtEveryMoment(p, before) && p(before + [raw])
  {
    var hs := before + [raw];
    assert hs[..|hs|] == hs;
    assert forall t :: 0 <= t <= |before| ==> hs[..t] == before[..t];
    if AtEveryMoment(p, hs) {
      forall t | 0 <= t <= |before| ensures p(before[..t]) {
        assert p(hs[..t]);
      }
    }
  }

  lemma OneMoreFeed(p: (seq<Text>, Text) -> bool, before: seq<Text>, raw: Text)
    ensures AtEveryFeed(p, before + [raw]) <==> AtEveryFeed(p, before) && p(before, raw)
  {
    var hs := before + [raw];
    assert hs[..|before|] == before;
    assert forall t :: 0 <= t < |before| ==> hs[..t] == before[..t] && hs[t] == before[t];
    if AtEveryFeed(p, hs) {
      assert p(hs[..|before|], hs[|before|]);
      forall t | 0 <= t < |before| ensures p(before[..t], before[t]) {
        assert p(hs[..t], hs[t]);
      }
    }
  }

  function BehindAt(m: nat, n: nat): seq<Text> -> bool {
    (hs: seq<Text>) => Behind(m, n, hs)
  }

  function FollowsAt(m: nat, n: nat): (seq<Text>, Text) -> bool {
    (before: seq<Text>, raw: Text) => Follows(m, n, before, raw)
  }

  /** Any hypotheses, any two agreements: one committed text is a prefix of the other at
      every moment exactly when every feed follows. */
  lemma {:induction false} AlwaysBehindIff(m: nat, n: nat, hs: seq<Text>)
    ensures AtEveryMoment(BehindAt(m, n), hs) <==> AtEveryFeed(FollowsAt(m, n), hs)
    ensures AtEveryMoment(BehindAt(m, n), hs) ==> Behind(m, n, hs)
  {
    if hs == [] {
      NothingCommittedYet(m, n);
    } else {
      var before, raw := hs[..|hs| - 1], hs[|hs| - 1];
      assert hs == before + [raw];
      AlwaysBehindIff(m, n, before);
      OneMoreMoment(BehindAt(m, n), before, raw);
      OneMoreFeed(FollowsAt(m, n), before, raw);
      if AtEveryMoment(BehindAt(m, n), before) {
        BehindStep(m, n, before, raw);
      }
    }
  }

  lemma NothingCommittedYet(m: nat, n: nat)
    ensures Behind(m, n, []) && AtEveryMoment(BehindAt(m, n), [])
  {
    var none: seq<Text> := [];
    assert none[..0] == [];
  }

  predicate Diverge(a: Text, b: Text) {
    !(a <= b) && !(b <= a)
  }

  /** The `m`-run takes a text that contradicts what the `n`-run holds. */
  predicate Contradicts(m: nat, n: nat, before: seq<Text>, raw: Text) {
    Takes(m, before, raw) && Diverge(Offered(m, before + [raw]), CommittedText(n, before))
  }

  lemma StableIsGreatest(window: seq<Text>)
    requires window != [] && AllWellFormed(window)
    ensures GreatestAgreed(window, Stable(window)) && Stable(window) <= window[|window| - 1]
  {
    WellFormedWindowAgrees(window);
    assert Agreed(window, Stable(window));
  }

  lemma SmallerWindowAgreesLonger(n: nat, m: nat, hs: seq<Text>)
    requires 1 <= n <= m <= |hs| && AllWellFormed(hs)
    ensures Stable(LastN(hs, m)) <= Stable(LastN(hs, n)) <= hs[|hs| - 1]
  {
    var wide, narrow := LastN(hs, m), LastN(hs, n);
    StableIsGreatest(wide);
    StableIsGreatest(narrow);
    var p := Stable(wide);
    assert Agreed(narrow, p) by {
      forall i | 0 <= i < |narrow| ensures p <= narrow[i] && IsBoundary(narrow[i], |p|) {
        assert narrow[i] == wide[i + (m - n)];
      }
    }
  }

  /** With well-formed hypotheses the larger agreement is offered no more than the smaller
      one, and the smaller one never gets stuck inside a code point. */
  lemma OfferedLess(m: nat, n: nat, hs: seq<Text>)
    requires hs != [] && AllWellFormed(hs) && Agreement(n) <= Agreement(m)
    ensures Offered(m, hs) <= Offered(n, hs) && WellFormed(Offered(m, hs))
  {
    SupportedIsStable(Agreement(m), hs);
    SupportedIsStable(Agreement(n), hs);
    if |hs| >= Agreement(m) {
      SmallerWindowAgreesLonger(Agreement(n), Agreement(m), hs);
    }
  }

  lemma FollowsUnlessContradicting(m: nat, n: nat, before: seq<Text>, raw: Text)
    requires AllWellFormed(before) && WellFormed(raw) && Agreement(n) <= Agreement(m)
    ensures Follows(m, n, before, raw) <==> !Contradicts(m, n, before, raw)
  {
    var c, p := CommittedText(n, before), Offered(m, before + [raw]);
    OfferedLess(m, n, before + [raw]);
    IncrementalRefinesDeclared(n, before);
    if c < p {
      PrefixEndsAtBoundary(c, raw);
    }
  }

  lemma DivergeForever(a: Text, b: Text, c: Text, d: Text)
    requires Diverge(a, b) && a <= c && b <= d
    ensures Diverge(c, d)
  {
  }

  lemma CommittedGrows(agreement: nat, before: seq<Text>, raw: Text)
    ensures CommittedText(agreement, before) <= CommittedText(agreement, before + [raw])
  {
    TakesOrKeeps(agreement, before, raw);
  }

  lemma ContradictedKeeps(m: nat, n: nat, before: seq<Text>, raw: Text)
    requires AllWellFormed(before) && WellFormed(raw) && Agreement(n) <= Agreement(m)
    requires Contradicts(m, n, before, raw)
    ensures !Takes(n, before, raw)
  {
    OfferedLess(m, n, before + [raw]);
  }

  /** A larger agreement that is not behind contradicts for good. */
  lemma BehindOrDiverged(m: nat, n: nat, before: seq<Text>, raw: Text)
    requires AllWellFormed(before) && WellFormed(raw) && Agreement(n) <= Agreement(m)
    requires Behind(m, n, before) || Diverge(CommittedText(m, before), CommittedText(n, before))
    ensures var all := before + [raw];
            Behind(m, n, all) <==> Behind(m, n, before) && !Contradicts(m, n, before, raw)
    ensures var all := before + [raw];
            Behind(m, n, all) || Diverge(CommittedText(m, all), CommittedText(n, all))
  {
    if Behind(m, n, before) {
      BehindStep(m, n, before, raw);
      FollowsUnlessContradicting(m, n, before, raw);
      TakesOrKeeps(m, before, raw);
      TakesOrKeeps(n, before, raw);
      if Contradicts(m, n, before, raw) {
        ContradictedKeeps(m, n, before, raw);
      }
    } else {
      CommittedGrows(m, before, raw);
      CommittedGrows(n, before, raw);
      DivergeForever(CommittedText(m, before), CommittedText(n, before),
                     CommittedText(m, before + [raw]), CommittedText(n, before + [raw]));
    }
  }

  function ContradictsNot(m: nat, n: nat): (seq<Text>, Text) -> bool {
    (before: seq<Text>, raw: Text) => !Contradicts(m, n, before, raw)
  }

  ghost predicate NeverContradicts(m: nat, n: nat, hs: seq<Text>) {
    AtEveryFeed(ContradictsNot(m, n), hs)
  }

  lemma {:induction false} BehindOrDivergedAlways(m: nat, n: nat, hs: seq<Text>)
    requires AllWellFormed(hs) && Agreement(n) <= Agreement(m)
    ensures Behind(m, n, hs) <==> NeverContradicts(m, n, hs)
    ensures Behind(m, n, hs) || Diverge(CommittedText(m, hs), CommittedText(n, hs))
  {
    if hs != [] {
      var before, raw := hs[..|hs| - 1], hs[|hs| - 1];
      assert hs == before + [raw];
      BehindOrDivergedAlways(m, n, before);
      BehindOrDiverged(m, n, before, raw);
      OneMoreFeed(ContradictsNot(m, n), before, raw);
    }
  }

  /** For well-formed hypotheses, exactly when a larger agreement only commits later: the
      run with agreement `m` has committed a prefix of what the one with agreement `n` has
      exactly when it never took a text that contradicts what that one held. */
  lemma LargerAgreementCommitsLaterIff(m: nat, n: nat, hs: seq<Text>)
    requires AllWellFormed(hs) && Agreement(n) <= Agreement(m)
    ensures CommittedText(m, hs) <= CommittedText(n, hs) <==> NeverContradicts(m, n, hs)
  {
    BehindOrDivergedAlways(m, n, hs);
  }

  /** No hypothesis contradicts what the run with agreement `n` has committed. */
  ghost predicate Uncontradicted(n: nat, hs: seq<Text>) {
    forall t :: 0 <= t < |hs| ==> CommittedText(n, hs[..t]) <= hs[t]
  }

  /** In particular while no hypothesis contradicts the smaller agreement. */
  lemma LargerAgreementCommitsLaterInCode(n: nat, m: nat, hs: seq<Text>)
    requires Agreement(n) <= Agreement(m) && AllWellFormed(hs) && Uncontradicted(n, hs)
    ensures FeedAll(m, hs).committed.text <= FeedAll(n, hs).committed.text
  {
    forall t | 0 <= t < |hs| ensures !Contradicts(m, n, hs[..t], hs[t]) {
      PrefixesOfOne(CommittedText(n, hs[..t]), Offered(m, hs[..t] + [hs[t]]), hs[t]);
      PrefixesOfOne(Offered(m, hs[..t] + [hs[t]]), CommittedText(n, hs[..t]), hs[t]);
    }
    LargerAgreementCommitsLaterIff(m, n, hs);
  }

  /** Nothing is committed while the supported prefix is empty. */
  lemma NothingSupported(agreement: nat, before: seq<Text>, raw: Text)
    requires FeedAll(agreement, before).committed == Committed([], 0)
    requires Supported(Agreement(agreement), before + [raw]) == 0
    ensures FeedAll(agreement, before + [raw]).committed == Committed([], 0)
  {
    CommitStep(agreement, before, raw);
    assert FloorBoundary(raw, 0) == 0;
    assert raw[..0] == [];
  }

  lemma RepeatedTextIsSupported(n: nat, hs: seq<Text>, raw: Text)
    requires 1 <= n <= |hs|
    requires forall i :: |hs| - n <= i < |hs| ==> hs[i] == raw
    ensures Supported(n, hs) == |raw|
  {
    var window := LastN(hs, n);
    assert forall i :: 0 <= i < |window| ==> window[i] == hs[|hs| - n + i];
    assert raw[..|raw|] == raw;
    SharedBytesIsMaximal(raw, window, |raw|);
  }

  /** `n` copies of the same text, after anything that committed nothing. */
  lemma RepeatedTextCommits(agreement: nat, before: seq<Text>, raw: Text)
    requires FeedAll(agreement, before).committed == Committed([], 0) && raw != []
    requires |before| + 1 >= Agreement(agreement)
    requires forall i :: |before| + 1 - Agreement(agreement) <= i < |before| ==> before[i] == raw
    ensures FeedAll(agreement, before + [raw]).committed == Committed(raw, |raw|)
  {
    RepeatedTextIsSupported(Agreement(agreement), before + [raw], raw);
    CommitStep(agreement, before, raw);
    assert raw[..|raw|] == raw;
  }

  /** Agreement 1 never gives up what the first hypothesis committed. */
  lemma Contradicted(before: seq<Text>, a: Text, b: Text)
    requires FeedAll(1, before).committed == Committed(a, |a|) && |a| == |b| == 1 && a != b
    ensures FeedAll(1, before + [b]).committed == Committed(a, |a|)
  {
    CommitStep(1, before, b);
  }

  lemma NothingYet(one: seq<Text>, two: seq<Text>, a: Text, b: Text)
    requires |a| == |b| == 1 && a != b && one == [] + [a] && two == one + [b]
    ensures FeedAll(2, two).committed == Committed([], 0)
  {
    NothingSupported(2, [], a);
    assert two == [a, b];
    NothingInCommon(a, b);
    NothingSupported(2, one, b);
  }

  lemma CommitsAtSecondLook(two: seq<Text>, a: Text, b: Text)
    requires FeedAll(2, two).committed == Committed([], 0) && b != [] && two == [a, b]
    ensures FeedAll(2, two + [b]).committed == Committed(b, |b|)
  {
    RepeatedTextCommits(2, two, b);
  }

  /** With a contradicting hypothesis it fails: after a, b, b agreement 1 holds a
      and agreement 2 holds b. */
  lemma ContradictionBreaksOrder(a: Text, b: Text)
    requires |a| == |b| == 1 && a != b
    ensures FeedAll(1, [a, b, b]).committed == Committed(a, 1)
    ensures FeedAll(2, [a, b, b]).committed == Committed(b, 1)
  {
    var one, two := [] + [a], [] + [a] + [b];
    assert two == [a, b] && two + [b] == [a, b, b];
    RepeatedTextCommits(1, [], a);
    Contradicted(one, a, b);
    Contradicted(two, a, b);
    NothingYet(one, two, a, b);
    CommitsAtSecondLook(two, a, b);
  }

  lemma NothingInCommon(a: Text, b: Text)
    requires |a| == |b| == 1 && a != b
    ensures Supported(2, [a, b]) == 0
  {
    var k := Supported(2, [a, b]);
    SupportedIsShared(2, [a, b], k);
    assert b[..1] == b;
  }

  // ----- Hypotheses that end inside a code point -----

  lemma OffBoundaryStep(agreement: nat, before: seq<Text>, raw: Text, all: seq<Text>)
    requires !IsBoundary(raw, |FeedAll(agreement, before).committed.text|) && all == before + [raw]
    ensures FeedAll(agreement, all).committed == FeedAll(agreement, before).committed
  {
    CommitStep(agreement, before, raw);
  }

  ghost predicate Frozen(agreement: nat, before: seq<Text>, after: seq<Text>) {
    FeedAll(agreement, after).committed == FeedAll(agreement, before).committed
  }

  lemma FrozenStep(agreement: nat, before: seq<Text>, after: seq<Text>, raw: Text, all: seq<Text>)
    requires Frozen(agreement, before, after) && all == after + [raw]
    requires !IsBoundary(raw, |FeedAll(agreement, before).committed.text|)
    ensures Frozen(agreement, before, all)
  {
    OffBoundaryStep(agreement, after, raw, all);
  }

  /** A committed text whose end is not a boundary of any later hypothesis
      never grows again. */
  lemma {:induction false} OffBoundaryFreezes(agreement: nat, before: seq<Text>, tail: seq<Text>)
    requires forall i :: 0 <= i < |tail| ==> !IsBoundary(tail[i], |FeedAll(agreement, before).committed.text|)
    ensures Frozen(agreement, before, before + tail)
  {
    if tail == [] {
      assert before + tail == before;
    } else {
      var init, last := tail[..|tail| - 1], tail[|tail| - 1];
      OffBoundaryFreezes(agreement, before, init);
      assert before + tail == (before + init) + [last];
      FrozenStep(agreement, before, before + init, last, before + tail);
    }
  }

  lemma ThreeAlikeCommit(e: Text)
    requires e != []
    ensures FeedAll(0, [e, e, e]).committed == Committed(e, |e|)
  {
    assert [] + [e] == [e] && [e] + [e] == [e, e] && [e, e] + [e] == [e, e, e];
    assert |LastN([e], 3)| == 1 && |LastN([e, e], 3)| == 2;
    NothingSupported(0, [], e);
    NothingSupported(0, [e], e);
    RepeatedTextCommits(0, [e, e], e);
  }

  lemma CutOffIsUnsupported(e: Text, x: Text)
    requires e == [0xC3] && x == [0xC3, 0xA9]
    ensures Supported(2, [e, x]) == 0
  {
    assert !IsBoundary(x, 1);
  }

  lemma CutOffCommitsNothing(one: seq<Text>, two: seq<Text>, e: Text, x: Text)
    requires e == [0xC3] && x == [0xC3, 0xA9] && one == [] + [e] && two == one + [x]
    ensures FeedAll(2, one).committed == FeedAll(2, two).committed == Committed([], 0)
  {
    NothingSupported(2, [], e);
    assert two == [e, x];
    CutOffIsUnsupported(e, x);
    NothingSupported(2, one, x);
  }

  lemma CutOffFreezesFirst(one: seq<Text>, two: seq<Text>, e: Text, x: Text)
    requires e == [0xC3] && x == [0xC3, 0xA9] && one == [] + [e] && two == one + [x]
    ensures FeedAll(1, one).committed == FeedAll(1, two).committed == FeedAll(1, two + [x]).committed == Committed(e, 1)
  {
    RepeatedTextCommits(1, [], e);
    assert !IsBoundary(x, 1);
    OffBoundaryStep(1, one, x, two);
    OffBoundaryStep(1, two, x, two + [x]);
  }

  lemma ThreeMoments(agreement: nat, one: seq<Text>, two: seq<Text>, e: Text, x: Text)
    requires one == [] + [e] && two == one + [x] && e <= x
    requires CommittedText(agreement, one) <= x && CommittedText(agreement, two) <= x
    ensures Uncontradicted(agreement, two + [x])
  {
    var hs := two + [x];
    assert hs[..0] == [] && hs[..1] == one && hs[..2] == two;
    assert hs[0] == e && hs[1] == hs[2] == x;
  }

  /** Nor does the order hold for arbitrary bytes: after a cut-off code point and twice
      the whole one, agreement 1 holds the lead byte and agreement 2 the code point,
      although no hypothesis contradicts either. */
  lemma TruncatedCodePointBreaksOrder(e: Text, x: Text)
    requires e == [0xC3] && x == [0xC3, 0xA9]
    ensures Uncontradicted(1, [e, x, x]) && Uncontradicted(2, [e, x, x])
    ensures CommittedText(1, [e, x, x]) == e && CommittedText(2, [e, x, x]) == x
    ensures !Follows(2, 1, [e, x], x)
  {
    var one, two := [] + [e], [] + [e] + [x];
    assert two == [e, x] && two + [x] == [e, x, x];
    CutOffFreezesFirst(one, two, e, x);
    CutOffCommitsNothing(one, two, e, x);
    CommitsAtSecondLook(two, e, x);
    ThreeMoments(1, one, two, e, x);
    ThreeMoments(2, one, two, e, x);
    BehindStep(2, 1, two, x);
  }

  /** Why well-formedness matters: three hypotheses that end in the lead byte of
      U+00E9 commit that byte alone, and however many later hypotheses complete
      the code point, it stays alone; the display then shows the lead byte twice. */
  lemma TruncatedCodePointFreezes(e: Text, tail: seq<Text>)
    requires e == [0xC3]
    requires forall i :: 0 <= i < |tail| ==> |tail[i]| >= 2 && tail[i][1] == 0xA9
    ensures FeedAll(0, [e, e, e] + tail).committed == Committed(e, 1)
    ensures forall i :: 0 <= i < |tail| ==> Tentative(tail[i], 1) == tail[i]
  {
    ThreeAlikeCommit(e);
    assert forall i :: 0 <= i < |tail| ==> !IsBoundary(tail[i], 1);
    OffBoundaryFreezes(0, [e, e, e], tail);
  }
}
