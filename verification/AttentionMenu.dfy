/** The attention-context menu of a streaming encoder: parsing, ordering by right
    context, and the flat list the loader reads. */
module AttentionMenu {
  import opened Sorting

  type Pair = (int, int)

  /** One entry of a list of lists: its numbers, or something that is no list. */
  datatype Entry = Numbers(values: seq<int>) | NoList

  /** The checkpoint's value: absent or no list, one flat list, or a list whose first
      element is a list. */
  datatype Raw = Missing | Flat(values: seq<int>) | Nested(first: seq<int>, rest: seq<Entry>)

  const FULL: Pair := (-1, -1)

  function ResolveOne(raw: Raw): Pair {
    match raw
    case Missing => FULL
    case Flat(v) => if |v| < 2 then FULL else (v[0], v[1])
    case Nested(first, _) => if |first| < 2 then FULL else (first[0], first[1])
  }

  function Choice(e: Entry): seq<Pair> {
    if e.Numbers? && |e.values| >= 2 then [(e.values[0], e.values[1])] else []
  }

  function Choices(es: seq<Entry>): seq<Pair> {
    if es == [] then [] else Choices(es[..|es| - 1]) + Choice(es[|es| - 1])
  }

  function ResolveMenu(raw: Raw): seq<Pair> {
    match raw
    case Missing => []
    case Flat(v) => if |v| >= 2 then [(v[0], v[1])] else []
    case Nested(first, rest) => Choices([Numbers(first)] + rest)
  }

  method CollectChoices(es: seq<Entry>) returns (out: seq<Pair>)
    ensures out == Choices(es)
  {
    out := [];
    for i := 0 to |es|
      invariant out == Choices(es[..i])
    {
      if es[i].Numbers? && |es[i].values| >= 2 {
        out := out + [(es[i].values[0], es[i].values[1])];
      }
      assert es[..i + 1][..i] == es[..i];
    }
    assert es[..|es|] == es;
  }

  function MinusRight(): Pair -> int {
    (p: Pair) => -p.1
  }

  /** The hyperparameters the menu touches. */
  datatype Context = Context(primary: Pair, choices: seq<Pair>)

  function Parsed(raw: Raw): Context {
    Context(ResolveOne(raw), ResolveMenu(raw))
  }

  /** Sort a menu of two or more by falling right context; the primary pair follows
      only when that moved something. */
  function Normalized(c: Context, chunkedLimited: bool): Context {
    if !chunkedLimited || |c.choices| < 2 then c
    else
      var sorted := StableSort(MinusRight(), c.choices);
      if sorted == c.choices then c else Context(sorted[0], sorted)
  }

  class Hyperparameters {
    var attContextLeft: int
    var attContextRight: int
    var choices: seq<Pair>

    function Menu(): Context
      reads this
    {
      Context((attContextLeft, attContextRight), choices)
    }

    method NormalizeMenu(chunkedLimited: bool)
      modifies this
      ensures Menu() == Normalized(old(Menu()), chunkedLimited)
    {
      if chunkedLimited && |choices| >= 2 {
        var sorted := StableSort(MinusRight(), choices);
        if sorted != choices {
          choices := sorted;
          attContextLeft, attContextRight := sorted[0].0, sorted[0].1;
        }
      }
    }
  }

  predicate FallingRight(ps: seq<Pair>) {
    forall i, j :: 0 <= i < j < |ps| ==> ps[i].1 >= ps[j].1
  }

  /** Normalization only reorders: largest right context first, equal ones in their
      old order. */
  lemma NormalizedIsStable(c: Context)
    ensures var n := Normalized(c, true);
            FallingRight(n.choices) && multiset(n.choices) == multiset(c.choices) &&
            forall k :: Keep(MinusRight(), k, n.choices) == Keep(MinusRight(), k, c.choices)
  {
    StableSortIsStable(MinusRight(), c.choices);
    var sorted := StableSort(MinusRight(), c.choices);
    assert forall i, j :: 0 <= i < j < |sorted| ==> MinusRight()(sorted[i]) <= MinusRight()(sorted[j]);
  }

  /** Any other attention style leaves the menu and the primary pair alone, and so does a
      menu of less than two choices. */
  lemma OtherStylesAreLeftAlone(c: Context, chunkedLimited: bool)
    requires !chunkedLimited || |c.choices| < 2
    ensures Normalized(c, chunkedLimited).primary == c.primary && Normalized(c, chunkedLimited).choices == c.choices
  {
  }

  /** A list of pairs as the checkpoint writes it. */
  function Written(ps: seq<Pair>): seq<Entry> {
    seq(|ps|, i requires 0 <= i < |ps| => Numbers([ps[i].0, ps[i].1]))
  }

  /** Reading undoes writing; entries that are no list, or too short, are skipped, and
      numbers behind the second are ignored. */
  lemma {:induction false} ChoicesOfWritten(ps: seq<Pair>)
    ensures Choices(Written(ps)) == ps
  {
    if ps != [] {
      var front := ps[..|ps| - 1];
      ChoicesOfWritten(front);
      assert Written(ps)[..|ps| - 1] == Written(front);
      assert ps == front + [ps[|ps| - 1]];
    }
  }

  lemma OtherEntries(es: seq<Entry>, short: seq<int>, l: int, r: int, more: seq<int>)
    requires |short| < 2
    ensures Choices(es + [NoList]) == Choices(es) == Choices(es + [Numbers(short)])
    ensures Choices(es + [Numbers([l, r] + more)]) == Choices(es) + [(l, r)]
  {
    assert forall e: Entry :: (es + [e])[..|es|] == es;
  }

  /** A well-formed menu is read as it stands, and its first pair is the primary one. */
  lemma MenuIsRead(ps: seq<Pair>)
    requires ps != []
    ensures var raw := Nested([ps[0].0, ps[0].1], Written(ps[1..]));
            ResolveMenu(raw) == ps && ResolveOne(raw) == ps[0]
    ensures ResolveMenu(Flat([ps[0].0, ps[0].1])) == [ps[0]] && ResolveOne(Flat([ps[0].0, ps[0].1])) == ps[0]
  {
    assert [Numbers([ps[0].0, ps[0].1])] + Written(ps[1..]) == Written(ps);
    ChoicesOfWritten(ps);
  }

  predicate WellFormedFirst(raw: Raw) {
    match raw
    case Missing => true
    case Flat(v) => true
    case Nested(first, _) => |first| >= 2
  }

  lemma {:induction false} FirstChoiceComesFirst(first: seq<int>, rest: seq<Entry>)
    requires |first| >= 2
    ensures |Choices([Numbers(first)] + rest)| > 0 && Choices([Numbers(first)] + rest)[0] == (first[0], first[1])
  {
    var es := [Numbers(first)] + rest;
    if rest == [] {
      assert es[..0] == [];
    } else {
      FirstChoiceComesFirst(first, rest[..|rest| - 1]);
      assert es[..|es| - 1] == [Numbers(first)] + rest[..|rest| - 1];
    }
  }

  /** The loader's requirement: the first choice is the primary pair. It holds for
      every menu exactly when the first entry is well formed, or sorting moves
      something, or the surviving first choice happens to be the full-attention pair. */
  lemma FirstChoiceIsPrimaryIff(raw: Raw)
    requires ResolveMenu(raw) != []
    ensures var n := Normalized(Parsed(raw), true);
            n.choices[0] == n.primary <==>
              WellFormedFirst(raw) || ResolveMenu(raw)[0] == FULL || !FallingRight(ResolveMenu(raw))
  {
    var c := Parsed(raw);
    if raw.Nested? && WellFormedFirst(raw) {
      FirstChoiceComesFirst(raw.first, raw.rest);
    }
    NormalizedIsStable(c);
    if FallingRight(c.choices) {
      assert SortedBy(MinusRight(), c.choices);
      SortedIsUnmoved(MinusRight(), c.choices);
    }
  }

  /** A malformed first entry before a valid one: the menu says (70, 13), the primary
      pair stays at full attention. */
  lemma MalformedFirstEntryBreaksIt()
    ensures Normalized(Parsed(Nested([], [Numbers([70, 13])])), true) == Context(FULL, [(70, 13)])
  {
    var es := [Numbers([])] + [Numbers([70, 13])];
    assert es[..1] == [Numbers([])] && es[..1][..0] == [];
    assert Choices(es[..1]) == Choices([]) + Choice(Numbers([]));
    assert Choices(es) == Choices(es[..1]) + Choice(es[1]);
  }

  // ----- The flat list -----

  function Flatten(ps: seq<Pair>): (r: seq<int>)
    ensures |r| == 2 * |ps| && forall i :: 0 <= i < |ps| ==> r[2 * i] == ps[i].0 && r[2 * i + 1] == ps[i].1
  {
    if ps == [] then [] else Flatten(ps[..|ps| - 1]) + [ps[|ps| - 1].0, ps[|ps| - 1].1]
  }

  method WriteFlat(ps: seq<Pair>) returns (flat: seq<int>)
    ensures flat == Flatten(ps)
  {
    flat := [];
    for i := 0 to |ps|
      invariant flat == Flatten(ps[..i])
    {
      flat := flat + [ps[i].0, ps[i].1];
      assert ps[..i + 1][..i] == ps[..i];
    }
    assert ps[..|ps|] == ps;
  }

  /** Pairwise reading. */
  function Pairs(flat: seq<int>): seq<Pair>
    requires |flat| % 2 == 0
  {
    seq(|flat| / 2, i requires 0 <= i < |flat| / 2 => (flat[2 * i], flat[2 * i + 1]))
  }

  lemma PairsOfFlatten(ps: seq<Pair>)
    ensures Pairs(Flatten(ps)) == ps
  {
  }

  lemma FlattenOfPairs(flat: seq<int>)
    requires |flat| % 2 == 0
    ensures Flatten(Pairs(flat)) == flat
  {
    var r := Flatten(Pairs(flat));
    forall k | 0 <= k < |flat| ensures r[k] == flat[k] {
      assert k == 2 * (k / 2) || k == 2 * (k / 2) + 1;
      assert Pairs(flat)[k / 2] == (flat[2 * (k / 2)], flat[2 * (k / 2) + 1]);
    }
  }
}
