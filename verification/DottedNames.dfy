/** Dotted names: components joined by '.', decimal indices, and the injectivity of
    both, for any legible spelling of the words. */
module DottedNames {
  import opened Vocabulary

  // ----- Decimal rendering -----

  predicate IsNumber(s: string) {
    s != [] && forall i :: 0 <= i < |s| ==> IsDigit(s[i])
  }

  function Digit(d: nat): char
    requires d < 10
  {
    '0' + d as char
  }

  function Decimal(n: nat): (s: string)
    ensures IsNumber(s)
  {
    if n < 10 then [Digit(n)] else Decimal(n / 10) + [Digit(n % 10)]
  }

  function DigitValue(c: char): nat
    requires IsDigit(c)
  {
    c as int - '0' as int
  }

  function Value(s: string): nat
    requires forall i :: 0 <= i < |s| ==> IsDigit(s[i])
  {
    if s == [] then 0 else 10 * Value(s[..|s| - 1]) + DigitValue(s[|s| - 1])
  }

  lemma {:induction false} ValueOfDecimal(n: nat)
    ensures Value(Decimal(n)) == n
  {
    var s := Decimal(n);
    if n < 10 {
      assert s[..0] == [];
    } else {
      ValueOfDecimal(n / 10);
      assert s[..|s| - 1] == Decimal(n / 10);
    }
  }

  // ----- Joining and splitting -----

  datatype List<T> = Nil | Cons(head: T, tail: List<T>)

  function Append<T>(a: List<T>, b: List<T>): List<T> {
    match a
    case Nil => b
    case Cons(x, rest) => Cons(x, Append(rest, b))
  }

  predicate IsDotless(s: string) {
    forall i :: 0 <= i < |s| ==> s[i] != '.'
  }

  predicate AllDotless(cs: List<string>) {
    cs.Cons? ==> IsDotless(cs.head) && AllDotless(cs.tail)
  }

  function Join(cs: List<string>): string {
    match cs
    case Nil => ""
    case Cons(c, Nil) => c
    case Cons(c, rest) => c + "." + Join(rest)
  }

  function Split(s: string): (cs: List<string>)
    ensures cs.Cons? && AllDotless(cs)
  {
    if s == "" then Cons("", Nil)
    else
      var rest := Split(s[1..]);
      if s[0] == '.' then Cons("", rest) else Cons([s[0]] + rest.head, rest.tail)
  }

  lemma {:induction false} JoinOfSplit(s: string)
    ensures Join(Split(s)) == s
  {
    if s != "" {
      JoinOfSplit(s[1..]);
    }
  }

  lemma {:induction false} SplitOfComponent(c: string, tail: List<string>)
    requires IsDotless(c) && (tail.Cons? ==> Split(Join(tail)) == tail)
    ensures Split(Join(Cons(c, tail))) == Cons(c, tail)
    decreases |c|
  {
    var s := Join(Cons(c, tail));
    if c == "" {
      if tail.Cons? {
        assert s[1..] == Join(tail);
      }
    } else {
      SplitOfComponent(c[1..], tail);
      assert s[1..] == Join(Cons(c[1..], tail));
      assert [c[0]] + c[1..] == c;
    }
  }

  lemma {:induction false} SplitOfJoin(cs: List<string>)
    requires cs.Cons? && AllDotless(cs)
    ensures Split(Join(cs)) == cs
  {
    if cs.tail.Cons? {
      SplitOfJoin(cs.tail);
    }
    SplitOfComponent(cs.head, cs.tail);
  }

  lemma JoinInjective(a: List<string>, b: List<string>)
    requires a.Cons? && b.Cons? && AllDotless(a) && AllDotless(b) && Join(a) == Join(b)
    ensures a == b
  {
    SplitOfJoin(a);
    SplitOfJoin(b);
  }

  // ----- Components -----

  /** A word, a decimal index, or an indexed word such as bias_ih_l3. */
  datatype Part = W(token: Token) | N(index: nat) | I(stem: Token, layer: nat)

  function Show(text: Spelling, p: Part): string {
    match p
    case W(t) => text.show(t)
    case N(n) => Decimal(n)
    case I(t, n) => text.show(t) + Decimal(n)
  }

  predicate IsPart(p: Part) {
    match p
    case W(t) => !IsIndexed(t)
    case N(_) => true
    case I(t, _) => IsIndexed(t)
  }

  lemma ShowShape(text: Spelling, p: Part)
    requires Legible(text)
    ensures Show(text, p) != [] && IsDotless(Show(text, p)) && (IsDigit(Show(text, p)[0]) <==> p.N?)
  {
    match p
    case W(t) => assert IsPlain(text.show(t));
    case N(n) =>
    case I(t, n) => assert IsPlain(text.show(t));
  }

  lemma PrefixesCompare(a: string, b: string, s: string)
    requires a <= s && b <= s
    ensures a <= b || b <= a
  {
  }

  lemma IndexedShowInjective(text: Spelling, x: Token, m: nat, p: Part)
    requires Legible(text) && IsIndexed(x) && IsPart(p)
    requires Show(text, I(x, m)) == Show(text, p)
    ensures p == I(x, m)
  {
    var s := Show(text, p);
    assert text.show(x) <= s && s[|text.show(x)|..] == Decimal(m);
    ShowShape(text, I(x, m));
    ShowShape(text, p);
    if p.I? {
      PrefixesCompare(text.show(x), text.show(p.stem), s);
      assert Decimal(p.layer) == s[|text.show(x)|..];
      ValueOfDecimal(p.layer);
      ValueOfDecimal(m);
    }
  }

  /** Distinct components look different. */
  lemma ShowInjective(text: Spelling, p: Part, q: Part)
    requires Legible(text) && IsPart(p) && IsPart(q) && Show(text, p) == Show(text, q)
    ensures p == q
  {
    ShowShape(text, p);
    ShowShape(text, q);
    if p.I? {
      IndexedShowInjective(text, p.stem, p.layer, q);
    } else if q.I? {
      IndexedShowInjective(text, q.stem, q.layer, p);
    } else if p.N? {
      ValueOfDecimal(p.index);
      ValueOfDecimal(q.index);
    }
  }

  // ----- Names -----

  datatype Name = Last(part: Part) | Dot(part: Part, rest: Name)

  predicate IsName(n: Name) {
    IsPart(n.part) && (n.Dot? ==> IsName(n.rest))
  }

  function Components(text: Spelling, n: Name): (cs: List<string>)
    ensures cs.Cons?
  {
    match n
    case Last(p) => Cons(Show(text, p), Nil)
    case Dot(p, rest) => Cons(Show(text, p), Components(text, rest))
  }

  function Render(text: Spelling, n: Name): string {
    match n
    case Last(p) => Show(text, p)
    case Dot(p, rest) => Show(text, p) + "." + Render(text, rest)
  }

  lemma {:induction false} RenderIsJoin(text: Spelling, n: Name)
    requires Legible(text)
    ensures Join(Components(text, n)) == Render(text, n) && AllDotless(Components(text, n))
  {
    ShowShape(text, n.part);
    if n.Dot? {
      RenderIsJoin(text, n.rest);
    }
  }

  lemma {:induction false} ComponentsInjective(text: Spelling, a: Name, b: Name)
    requires Legible(text) && IsName(a) && IsName(b) && Components(text, a) == Components(text, b)
    ensures a == b
  {
    ShowInjective(text, a.part, b.part);
    if a.Dot? && b.Dot? {
      ComponentsInjective(text, a.rest, b.rest);
    }
  }

  /** Distinct names are distinct strings. */
  lemma RenderInjective(text: Spelling, a: Name, b: Name)
    requires Legible(text) && IsName(a) && IsName(b) && Render(text, a) == Render(text, b)
    ensures a == b
  {
    RenderIsJoin(text, a);
    RenderIsJoin(text, b);
    JoinInjective(Components(text, a), Components(text, b));
    ComponentsInjective(text, a, b);
  }
}
