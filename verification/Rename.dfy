/** Rename rules over dotted names: what one rule matches, what it makes of a
    match, and why one rule never merges two names. Patterns are read component by
    component. */
module Rename {
  import opened Options
  import opened Vocabulary
  import opened DottedNames

  /** Alternatives for one component, each with what it becomes. */
  datatype Alternatives = Only(from: Token, to: Token) | Or(from: Token, to: Token, more: Alternatives)

  /** One rule: what each component must be and what replaces it. */
  datatype Pattern =
    | End                                            // $
    | Rest                                           // (.+)$, kept
    | Number(next: Pattern)                          // (\d+), kept
    | Literal(word: Token, becomes: Name, next: Pattern)
    | OneOf(alternatives: Alternatives, next: Pattern)

  function Choose(text: Spelling, alts: Alternatives, c: string): Option<Token> {
    if c == text.show(alts.from) then Some(alts.to)
    else if alts.Or? then Choose(text, alts.more, c)
    else None
  }

  predicate Matches(text: Spelling, p: Pattern, cs: List<string>) {
    match p
    case End => cs.Nil?
    case Rest => cs.Cons? && cs != Cons("", Nil)
    case Number(next) => cs.Cons? && IsNumber(cs.head) && Matches(text, next, cs.tail)
    case Literal(w, _, next) => cs.Cons? && cs.head == text.show(w) && Matches(text, next, cs.tail)
    case OneOf(alts, next) => cs.Cons? && Choose(text, alts, cs.head).Some? && Matches(text, next, cs.tail)
  }

  function Rewrite(text: Spelling, p: Pattern, cs: List<string>): (r: List<string>)
    requires Matches(text, p, cs)
    ensures cs.Cons? ==> r.Cons?
  {
    match p
    case End => Nil
    case Rest => cs
    case Number(next) => Cons(cs.head, Rewrite(text, next, cs.tail))
    case Literal(_, out, next) => Append(Components(text, out), Rewrite(text, next, cs.tail))
    case OneOf(alts, next) => Cons(text.show(Choose(text, alts, cs.head).value), Rewrite(text, next, cs.tail))
  }

  /** One component of a match, and the rest of it. */
  lemma MatchStep(text: Spelling, p: Pattern, cs: List<string>)
    requires Matches(text, p, cs) && !p.End? && !p.Rest?
    ensures cs.Cons? && Matches(text, p.next, cs.tail)
    ensures p.Number? ==> IsNumber(cs.head) && Rewrite(text, p, cs) == Cons(cs.head, Rewrite(text, p.next, cs.tail))
    ensures p.Literal? ==>
              cs.head == text.show(p.word) &&
              Rewrite(text, p, cs) == Append(Components(text, p.becomes), Rewrite(text, p.next, cs.tail))
    ensures p.OneOf? ==>
              Choose(text, p.alternatives, cs.head).Some? &&
              Rewrite(text, p, cs) ==
              Cons(text.show(Choose(text, p.alternatives, cs.head).value), Rewrite(text, p.next, cs.tail))
  {
  }

  predicate EndsInLineFeed(key: string) {
    key != "" && key[|key| - 1] == '\n'
  }

  // `$` also matches before a final line feed, which the substitution keeps.
  function Body(key: string): string {
    if EndsInLineFeed(key) then key[..|key| - 1] else key
  }

  // ----- One rule never merges two names -----

  predicate Yields(alts: Alternatives, t: Token) {
    alts.to == t || (alts.Or? && Yields(alts.more, t))
  }

  /** No two alternatives become the same word. */
  predicate YieldApart(alts: Alternatives) {
    alts.Only? || (!Yields(alts.more, alts.to) && YieldApart(alts.more))
  }

  predicate OneToOne(p: Pattern) {
    match p
    case End => true
    case Rest => true
    case Number(next) => OneToOne(next)
    case Literal(_, _, next) => OneToOne(next)
    case OneOf(alts, next) => YieldApart(alts) && OneToOne(next)
  }

  lemma {:induction false} ChoiceIsYielded(text: Spelling, alts: Alternatives, c: string)
    requires Choose(text, alts, c).Some?
    ensures Yields(alts, Choose(text, alts, c).value)
  {
    if c != text.show(alts.from) {
      ChoiceIsYielded(text, alts.more, c);
    }
  }

  predicate Accepts(alts: Alternatives, t: Token) {
    alts.from == t || (alts.Or? && Accepts(alts.more, t))
  }

  /** A word outside the alternatives is neither what was read nor what is written. */
  lemma {:induction false} OutsideAlternatives(text: Spelling, alts: Alternatives, c: string, u: Token)
    requires Readable(text) && Choose(text, alts, c).Some?
    ensures !Accepts(alts, u) ==> c != text.show(u)
    ensures !Yields(alts, u) ==> text.show(Choose(text, alts, c).value) != text.show(u)
  {
    if c != text.show(alts.from) {
      OutsideAlternatives(text, alts.more, c, u);
    }
  }

  lemma {:induction false} ChoiceInjective(text: Spelling, alts: Alternatives, c: string, d: string)
    requires YieldApart(alts) && Choose(text, alts, c).Some? && Choose(text, alts, c) == Choose(text, alts, d)
    ensures c == d
  {
    if c != text.show(alts.from) && d != text.show(alts.from) {
      ChoiceInjective(text, alts.more, c, d);
    } else if c != text.show(alts.from) {
      ChoiceIsYielded(text, alts.more, c);
    } else if d != text.show(alts.from) {
      ChoiceIsYielded(text, alts.more, d);
    }
  }

  lemma {:induction false} AppendCancels<T>(a: List<T>, x: List<T>, y: List<T>)
    requires Append(a, x) == Append(a, y)
    ensures x == y
  {
    if a.Cons? {
      AppendCancels(a.tail, x, y);
    }
  }

  lemma {:induction false} RewriteInjective(text: Spelling, p: Pattern, cs: List<string>, ds: List<string>)
    requires Readable(text) && OneToOne(p)
    requires Matches(text, p, cs) && Matches(text, p, ds)
    requires Rewrite(text, p, cs) == Rewrite(text, p, ds)
    ensures cs == ds
  {
    if !p.End? && !p.Rest? {
      if p.Literal? {
        AppendCancels(Components(text, p.becomes), Rewrite(text, p.next, cs.tail), Rewrite(text, p.next, ds.tail));
      }
      if p.OneOf? {
        ChoiceInjective(text, p.alternatives, cs.head, ds.head);
      }
      RewriteInjective(text, p.next, cs.tail, ds.tail);
    }
  }

  lemma {:induction false} AppendDotless(a: List<string>, b: List<string>)
    requires AllDotless(a) && AllDotless(b)
    ensures AllDotless(Append(a, b))
  {
    if a.Cons? {
      AppendDotless(a.tail, b);
    }
  }

  lemma {:induction false} RewriteDotless(text: Spelling, p: Pattern, cs: List<string>)
    requires Legible(text) && Matches(text, p, cs) && AllDotless(cs)
    ensures AllDotless(Rewrite(text, p, cs))
  {
    if !p.End? && !p.Rest? {
      RewriteDotless(text, p.next, cs.tail);
      if p.Literal? {
        RenderIsJoin(text, p.becomes);
        AppendDotless(Components(text, p.becomes), Rewrite(text, p.next, cs.tail));
      } else if p.OneOf? {
        ShowShape(text, W(Choose(text, p.alternatives, cs.head).value));
      }
    }
  }

  // ----- Line feeds -----

  predicate FreeOf(cs: List<string>, c: char) {
    cs.Cons? ==> c !in cs.head && FreeOf(cs.tail, c)
  }

  lemma {:induction false} OneLine(cs: List<string>)
    ensures FreeOf(cs, '\n') <==> '\n' !in Join(cs)
  {
    if cs.Cons? {
      OneLine(cs.tail);
    }
  }

  lemma {:induction false} AppendOneLine(a: List<string>, b: List<string>)
    requires FreeOf(a, '\n') && FreeOf(b, '\n')
    ensures FreeOf(Append(a, b), '\n')
  {
    if a.Cons? {
      AppendOneLine(a.tail, b);
    }
  }

  lemma {:induction false} ComponentsOneLine(text: Spelling, n: Name)
    requires Legible(text)
    ensures FreeOf(Components(text, n), '\n')
  {
    if !n.part.N? {
      assert IsPlain(text.show(if n.part.W? then n.part.token else n.part.stem));
    }
    if n.Dot? {
      ComponentsOneLine(text, n.rest);
    }
  }

  lemma {:induction false} RewriteOneLine(text: Spelling, p: Pattern, cs: List<string>)
    requires Legible(text) && Matches(text, p, cs) && FreeOf(cs, '\n')
    ensures FreeOf(Rewrite(text, p, cs), '\n')
  {
    if !p.End? && !p.Rest? {
      RewriteOneLine(text, p.next, cs.tail);
      if p.Literal? {
        ComponentsOneLine(text, p.becomes);
        AppendOneLine(Components(text, p.becomes), Rewrite(text, p.next, cs.tail));
      } else if p.OneOf? {
        assert IsPlain(text.show(Choose(text, p.alternatives, cs.head).value));
      }
    }
  }
}
