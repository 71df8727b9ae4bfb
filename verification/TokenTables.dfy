/** Dense token tables built from a base vocabulary, added tokens and, for one model, an
    audio placeholder, with the lookups that name special tokens in them. */
module TokenTables {
  import opened DottedNames

  datatype Entry = Entry(id: int, text: string, special: bool)

  /** An insertion-ordered dictionary from ids to entries. */
  datatype Table = Table(order: seq<int>, entries: map<int, Entry>)

  const EMPTY_TABLE := Table([], map[])

  function Put(t: Table, e: Entry): Table {
    Table(if e.id in t.entries then t.order else t.order + [e.id], t.entries[e.id := e])
  }

  /** The dictionary after all writes: base vocabulary, added tokens, overlay. */
  function Overlaid(writes: seq<Entry>): Table {
    if writes == [] then EMPTY_TABLE
    else Put(Overlaid(writes[..|writes| - 1]), writes[|writes| - 1])
  }

  /** The last write to an id, or |writes|. */
  function LastWrite(writes: seq<Entry>, id: int): (k: nat)
    ensures k <= |writes| && (k < |writes| ==> writes[k].id == id)
    ensures forall j :: 0 <= j < |writes| && writes[j].id == id ==> j <= k < |writes|
  {
    if writes == [] then 0
    else if writes[|writes| - 1].id == id then |writes| - 1
    else
      var k := LastWrite(writes[..|writes| - 1], id);
      if k < |writes| - 1 then k else |writes|
  }

  /** An id holds what its last writer put there, and each id is listed once. */
  lemma {:induction false} OverlaidHoldsLastWrite(writes: seq<Entry>, id: int)
    ensures var t, k := Overlaid(writes), LastWrite(writes, id);
            (id in t.entries <==> k < |writes|) && (k < |writes| ==> t.entries[id] == writes[k]) &&
            (id in t.order <==> id in t.entries)
  {
    if writes != [] {
      OverlaidHoldsLastWrite(writes[..|writes| - 1], id);
      OverlaidHoldsLastWrite(writes[..|writes| - 1], writes[|writes| - 1].id);
    }
  }

  // ----- The dense arrays -----

  function Filler(i: nat): string {
    "<|unused_" + Decimal(i) + "|>"
  }

  /** Holes are told apart. */
  lemma FillersDiffer(i: nat, j: nat)
    requires Filler(i) == Filler(j)
    ensures i == j
  {
    var f := "<|unused_";
    assert Filler(i)[|f|..|Filler(i)| - 2] == Decimal(i) && Filler(j)[|f|..|Filler(j)| - 2] == Decimal(j);
    ValueOfDecimal(i);
    ValueOfDecimal(j);
  }

  datatype Dense = Dense(tokens: seq<string>, control: seq<bool>) | TooLarge(maxId: int) | NoTokens

  function TokenAt(t: Table, i: nat): string {
    if i in t.entries then t.entries[i].text else Filler(i)
  }

  function ControlAt(t: Table, i: nat): bool {
    i in t.entries && t.entries[i].special
  }

  /** The largest id; a table of nothing has none. */
  function MaxId(order: seq<int>): int
    requires order != []
  {
    if |order| == 1 then order[0]
    else
      var m := MaxId(order[..|order| - 1]);
      if order[|order| - 1] > m then order[|order| - 1] else m
  }

  lemma {:induction false} MaxIdIsLargest(order: seq<int>)
    requires order != []
    ensures MaxId(order) in order && forall i :: i in order ==> i <= MaxId(order)
  {
    if |order| > 1 {
      MaxIdIsLargest(order[..|order| - 1]);
      assert order == order[..|order| - 1] + [order[|order| - 1]];
    }
  }

  method FillTable(writes: seq<Entry>) returns (t: Table)
    ensures t == Overlaid(writes)
  {
    var order: seq<int> := [];
    var entries: map<int, Entry> := map[];
    for k := 0 to |writes|
      invariant Table(order, entries) == Overlaid(writes[..k])
    {
      assert writes[..k + 1][..k] == writes[..k];
      if writes[k].id !in entries {
        order := order + [writes[k].id];
      }
      entries := entries[writes[k].id := writes[k]];
    }
    assert writes[..|writes|] == writes;
    t := Table(order, entries);
  }

  method BuildRows(t: Table, vocabSize: nat) returns (tokens: seq<string>, control: seq<bool>)
    ensures |tokens| == |control| == vocabSize
    ensures forall i :: 0 <= i < vocabSize ==> tokens[i] == TokenAt(t, i) && control[i] == ControlAt(t, i)
  {
    tokens, control := [], [];
    for i := 0 to vocabSize
      invariant |tokens| == |control| == i
      invariant forall j :: 0 <= j < i ==> tokens[j] == TokenAt(t, j) && control[j] == ControlAt(t, j)
    {
      if i in t.entries {
        tokens, control := tokens + [t.entries[i].text], control + [t.entries[i].special];
      } else {
        tokens, control := tokens + [Filler(i)], control + [false];
      }
    }
  }

  predicate HoldsLastWrite(d: Dense, writes: seq<Entry>, i: nat)
    requires d.Dense? && i < |d.tokens| == |d.control|
  {
    var k := LastWrite(writes, i);
    d.tokens[i] == (if k < |writes| then writes[k].text else Filler(i)) &&
    d.control[i] == (k < |writes| && writes[k].special)
  }

  lemma ListedIffWritten(writes: seq<Entry>)
    ensures forall k :: 0 <= k < |writes| ==> writes[k].id in Overlaid(writes).order
    ensures forall id :: id in Overlaid(writes).order ==> exists k :: 0 <= k < |writes| && writes[k].id == id
  {
    forall k | 0 <= k < |writes| ensures writes[k].id in Overlaid(writes).order {
      OverlaidHoldsLastWrite(writes, writes[k].id);
    }
    forall id | id in Overlaid(writes).order ensures exists k :: 0 <= k < |writes| && writes[k].id == id {
      OverlaidHoldsLastWrite(writes, id);
    }
  }

  predicate IsLargest(writes: seq<Entry>, id: int) {
    (exists k :: 0 <= k < |writes| && writes[k].id == id) && forall k :: 0 <= k < |writes| ==> writes[k].id <= id
  }

  lemma LargestOfWrites(writes: seq<Entry>)
    requires Overlaid(writes).order != []
    ensures IsLargest(writes, MaxId(Overlaid(writes).order))
  {
    ListedIffWritten(writes);
    MaxIdIsLargest(Overlaid(writes).order);
  }

  /** The token and type arrays: one row per id below the vocabulary size, each the last
      writer's, fillers in the holes; refused when some id does not fit. */
  method BuildArrays(writes: seq<Entry>, vocabSize: nat) returns (d: Dense)
    ensures d.NoTokens? <==> writes == []
    ensures d.TooLarge? <==> exists k :: 0 <= k < |writes| && writes[k].id >= vocabSize
    ensures d.TooLarge? ==> IsLargest(writes, d.maxId)
    ensures d.Dense? ==>
              |d.tokens| == |d.control| == vocabSize && forall i: nat :: i < vocabSize ==> HoldsLastWrite(d, writes, i)
  {
    var t := FillTable(writes);
    ListedIffWritten(writes);
    assert writes != [] ==> writes[0].id in t.order;
    if t.order == [] {
      return NoTokens;
    }
    assert t.order[0] in t.order;
    MaxIdIsLargest(t.order);
    var maxId := MaxId(t.order);
    if maxId + 1 > vocabSize {
      LargestOfWrites(writes);
      return TooLarge(maxId);
    }
    var tokens, control := BuildRows(t, vocabSize);
    d := Dense(tokens, control);
    forall i: nat | i < vocabSize ensures HoldsLastWrite(d, writes, i) {
      OverlaidHoldsLastWrite(writes, i);
    }
  }

  // ----- Naming special tokens: the reverse map -----

  datatype Lookup = NotFound | Found(id: int)

  predicate Listed(t: Table, order: seq<int>) {
    forall k :: 0 <= k < |order| ==> order[k] in t.entries
  }

  /** Reading the finished table backwards: the last listed id with this text. */
  function FromTable(t: Table, order: seq<int>, name: string): Lookup
    requires Listed(t, order)
  {
    if order == [] then NotFound
    else if t.entries[order[|order| - 1]].text == name then Found(order[|order| - 1])
    else FromTable(t, order[..|order| - 1], name)
  }

  method ReverseMap(t: Table) returns (m: map<string, int>)
    requires Listed(t, t.order)
    ensures forall name :: FromTable(t, t.order, name) == if name in m then Found(m[name]) else NotFound
  {
    m := map[];
    for k := 0 to |t.order|
      invariant forall name :: FromTable(t, t.order[..k], name) == if name in m then Found(m[name]) else NotFound
    {
      assert t.order[..k + 1][..k] == t.order[..k];
      m := m[t.entries[t.order[k]].text := t.order[k]];
    }
    assert t.order[..|t.order|] == t.order;
  }

  lemma {:induction false} FoundInTable(t: Table, order: seq<int>, name: string)
    requires Listed(t, order)
    ensures var r := FromTable(t, order, name);
            if r.Found? then r.id in order && r.id in t.entries && t.entries[r.id].text == name
            else forall k :: 0 <= k < |order| ==> t.entries[order[k]].text != name
  {
    if order != [] {
      FoundInTable(t, order[..|order| - 1], name);
      assert forall k :: 0 <= k < |order| - 1 ==> order[..|order| - 1][k] == order[k];
    }
  }

  lemma OverlaidIsListed(writes: seq<Entry>)
    ensures Listed(Overlaid(writes), Overlaid(writes).order)
  {
    var t := Overlaid(writes);
    forall k | 0 <= k < |t.order| ensures t.order[k] in t.entries {
      assert t.order[k] in t.order;
      OverlaidHoldsLastWrite(writes, t.order[k]);
    }
  }

  /** The reverse map always names the row that holds the text; it finds nothing only
      when no row does. Only an id below zero has no row. */
  lemma ReverseLookupIsRight(writes: seq<Entry>, name: string)
    ensures Listed(Overlaid(writes), Overlaid(writes).order)
    ensures var r := FromTable(Overlaid(writes), Overlaid(writes).order, name);
            if r.Found? then
              LastWrite(writes, r.id) < |writes| && writes[LastWrite(writes, r.id)].text == name &&
              (r.id >= 0 ==> TokenAt(Overlaid(writes), r.id) == name)
            else forall id :: LastWrite(writes, id) < |writes| ==> writes[LastWrite(writes, id)].text != name
  {
    var t := Overlaid(writes);
    OverlaidIsListed(writes);
    FoundInTable(t, t.order, name);
    var r := FromTable(t, t.order, name);
    if r.Found? {
      OverlaidHoldsLastWrite(writes, r.id);
    } else {
      forall id | LastWrite(writes, id) < |writes| ensures writes[LastWrite(writes, id)].text != name {
        OverlaidHoldsLastWrite(writes, id);
        var k :| 0 <= k < |t.order| && t.order[k] == id;
      }
    }
  }

  // ----- Naming special tokens: base vocabulary first -----

  /** The first entry with this text, or |es|. */
  function FirstNamed(es: seq<Entry>, name: string): (k: nat)
    ensures k <= |es| && (k < |es| ==> es[k].text == name)
    ensures forall j :: 0 <= j < k ==> es[j].text != name
  {
    if es == [] then 0
    else
      var k := FirstNamed(es[..|es| - 1], name);
      if k < |es| - 1 || es[|es| - 1].text == name then k else |es|
  }

  /** The write the lookup settles on. Texts of the base vocabulary are distinct, so the
      first is the only one there. */
  function NamedWrite(base: seq<Entry>, added: seq<Entry>, name: string): (k: nat)
    ensures k <= |base + added| && (k < |base + added| ==> (base + added)[k].text == name)
  {
    var b := FirstNamed(base, name);
    if b < |base| then b else |base| + FirstNamed(added, name)
  }

  method NameToId(base: seq<Entry>, added: seq<Entry>, name: string) returns (r: Lookup)
    ensures var k := NamedWrite(base, added, name);
            r == if k < |base + added| then Found((base + added)[k].id) else NotFound
  {
    var b := FirstNamed(base, name);
    if b < |base| {
      return Found(base[b].id);
    }
    for i := 0 to |added|
      invariant FirstNamed(added[..i], name) == i
    {
      assert added[..i + 1][..i] == added[..i];
      if added[i].text == name {
        FirstNamedExtends(added, i, name);
        return Found(added[i].id);
      }
    }
    assert added[..|added|] == added;
    r := NotFound;
  }

  lemma FirstNamedExtends(es: seq<Entry>, i: nat, name: string)
    requires i < |es| && es[i].text == name && FirstNamed(es[..i], name) == i
    ensures FirstNamed(es, name) == i
  {
    forall j | 0 <= j < i ensures es[j].text != name {
      assert es[..i][j].text != name;
    }
  }

  lemma LastWriteConcat(a: seq<Entry>, b: seq<Entry>, id: int)
    ensures LastWrite(a + b, id) ==
            if LastWrite(b, id) < |b| then |a| + LastWrite(b, id)
            else if LastWrite(a, id) < |a| then LastWrite(a, id) else |a + b|
  {
    var l, m := LastWrite(a, id), LastWrite(b, id);
    if m < |b| {
      assert (a + b)[|a| + m].id == id;
    }
    if l < |a| {
      assert (a + b)[l].id == id;
    }
  }

  /** Nothing in this part puts another text at the id last. */
  predicate Leaves(part: seq<Entry>, id: int, name: string) {
    var k := LastWrite(part, id);
    k < |part| ==> part[k].text == name
  }

  predicate Touches(part: seq<Entry>, id: int) {
    LastWrite(part, id) < |part|
  }

  /** The row is kept: by the placeholder if it is at this id, else by the added tokens
      if one is, else by the base vocabulary. */
  predicate Kept(base: seq<Entry>, added: seq<Entry>, overlay: seq<Entry>, id: int, name: string) {
    Leaves(overlay, id, name) &&
    (!Touches(overlay, id) ==> Leaves(added, id, name) && (!Touches(added, id) ==> Leaves(base, id, name)))
  }

  lemma LeavesConcat(a: seq<Entry>, b: seq<Entry>, id: int, name: string)
    ensures Leaves(a + b, id, name) <==> Leaves(b, id, name) && (!Touches(b, id) ==> Leaves(a, id, name))
    ensures Touches(a + b, id) <==> Touches(a, id) || Touches(b, id)
  {
    LastWriteConcat(a, b, id);
  }

  /** Looking names up in the base vocabulary first gives a row that holds the name
      exactly when no added token and no placeholder has displaced it: the lookup reads
      the parts, not the finished table. */
  lemma BaseFirstLookupIff(base: seq<Entry>, added: seq<Entry>, overlay: seq<Entry>, name: string)
    requires NamedWrite(base, added, name) < |base + added|
    ensures var id := (base + added)[NamedWrite(base, added, name)].id;
            id >= 0 ==>
              (TokenAt(Overlaid(base + added + overlay), id) == name <==> Kept(base, added, overlay, id, name))
  {
    var k, writes := NamedWrite(base, added, name), base + added + overlay;
    var id := (base + added)[k].id;
    assert writes[k] == (base + added)[k];
    assert Touches(writes, id);
    LeavesConcat(base + added, overlay, id, name);
    LeavesConcat(base, added, id, name);
    HeldIffLeft(writes, id, name);
  }

  lemma HeldIffLeft(writes: seq<Entry>, id: int, name: string)
    requires Touches(writes, id)
    ensures id >= 0 ==> (TokenAt(Overlaid(writes), id) == name <==> Leaves(writes, id, name))
  {
    OverlaidHoldsLastWrite(writes, id);
  }

  /** A placeholder over a special token's id: the name lookup still answers that id,
      whose row now holds the placeholder. */
  lemma PlaceholderDisplaces(pad: string, audio: string)
    requires pad != audio
    ensures var base, overlay := [Entry(0, pad, false)], [Entry(0, audio, true)];
            NamedWrite(base, [], pad) == 0 && TokenAt(Overlaid(base + [] + overlay), 0) == audio
  {
    var base, overlay := [Entry(0, pad, false)], [Entry(0, audio, true)];
    assert base[..0] == [];
    assert FirstNamed(base, pad) == 0;
    var writes := base + [] + overlay;
    assert writes == [Entry(0, pad, false), Entry(0, audio, true)];
    OverlaidHoldsLastWrite(writes, 0);
    BaseFirstLookupIff(base, [], overlay, pad);
  }
}
