/**
 When a merge succeeds and when it does not, said of the edits and symbols themselves.
 */
module MergeOutcomes {
  import opened Merge

  // ----- Two edits

  /** The edit replaces base line `line`. */
  predicate Replaces(e: Edit, line: int) { e.first <= line < e.last }

  /** An insertion inside the other's range or at one of its ends. */
  predicate InsertsInto(e: Edit, f: Edit) { e.first == e.last && f.first <= e.first && e.first <= f.last }

  /** Different edits that replace a common base line, or one of which inserts into the other. */
  ghost predicate Incompatible(e: Edit, f: Edit) {
    && e != f
    && ((exists line :: Replaces(e, line) && Replaces(f, line)) || InsertsInto(e, f) || InsertsInto(f, e))
  }

  lemma ClashIffIncompatible(e: Edit, f: Edit)
    requires e.first <= e.last && f.first <= f.last
    ensures Clash(e, f) <==> Incompatible(e, f)
  {
    var start := if e.first < f.first then f.first else e.first;
    if e.first < e.last && f.first < f.last && start < e.last && start < f.last {
      assert Replaces(e, start) && Replaces(f, start);
    }
  }

  /** Both replace lines, and one ends at or before the start of the other. */
  predicate Apart(e: Edit, f: Edit) {
    e.first < e.last && f.first < f.last && (e.last <= f.first || f.last <= e.first)
  }

  lemma ApartIsCompatible(e: Edit, f: Edit)
    requires Apart(e, f)
    ensures !Incompatible(e, f)
  {}

  ghost predicate Compatible(left: seq<Edit>, right: seq<Edit>) {
    forall e, f :: e in left && f in right ==> !Incompatible(e, f)
  }

  lemma NoClashIffCompatible(n: int, left: seq<Edit>, right: seq<Edit>)
    requires Script(n, 0, left) && Script(n, 0, right)
    ensures NoClash(left, right) <==> Compatible(left, right)
  {
    forall e, f | e in left && f in right ensures Clash(e, f) <==> Incompatible(e, f) {
      ScriptBounds(n, 0, left, e);
      ScriptBounds(n, 0, right, f);
      ClashIffIncompatible(e, f);
    }
  }

  // ----- Symbols

  /** The same symbol, or one lies inside the other. */
  ghost predicate Nested(a: string, b: string) {
    a == b || (exists rest :: a == b + "." + rest) || (exists rest :: b == a + "." + rest)
  }

  lemma PrefixIff(a: string, b: string)
    ensures b + "." <= a <==> exists rest :: a == b + "." + rest
  {
    if b + "." <= a { assert a == b + "." + a[|b| + 1..]; }
  }

  lemma RelatedIffNested(a: string, b: string)
    ensures Related(a, b) <==> Nested(a, b)
  {
    PrefixIff(a, b);
    PrefixIff(b, a);
  }

  /** The symbol is owned by one text only, or differently by the two. */
  predicate Differs(m: map<string, string>, m': map<string, string>, s: string) {
    (s in m && s !in m') || (s !in m && s in m') || (s in m && s in m' && m[s] != m'[s])
  }

  lemma ChangedIffDiffers(m: map<string, string>, m': map<string, string>, s: string)
    ensures s in Changed(m, m') <==> Differs(m, m', s)
  {}

  /** The symbol guard passes exactly when all three texts have well-defined symbols and no symbol changed
      on one side is, contains or lies in one changed on the other. */
  lemma GuardPassesIff(tools: Tools, base: string, current: string, incoming: string)
    ensures var b, c, i := tools.owners(base), tools.owners(current), tools.owners(incoming);
            AstGuard(tools, base, current, incoming).Pass? <==>
              && b.Owns? && c.Owns? && i.Owns?
              && forall x, y :: Differs(b.symbols, c.symbols, x) && Differs(b.symbols, i.symbols, y) ==> !Nested(x, y)
  {
    var b, c, i := tools.owners(base), tools.owners(current), tools.owners(incoming);
    if b.Owns? && c.Owns? && i.Owns? {
      forall x ensures x in Changed(b.symbols, c.symbols) <==> Differs(b.symbols, c.symbols, x) {
        ChangedIffDiffers(b.symbols, c.symbols, x);
      }
      forall y ensures y in Changed(b.symbols, i.symbols) <==> Differs(b.symbols, i.symbols, y) {
        ChangedIffDiffers(b.symbols, i.symbols, y);
      }
      forall x, y ensures Related(x, y) <==> Nested(x, y) { RelatedIffNested(x, y); }
    }
  }

  /** A text that is not well defined is reported for the first of base, current and incoming. */
  lemma GuardReportsFirst(tools: Tools, base: string, current: string, incoming: string)
    ensures var b, c, i := tools.owners(base), tools.owners(current), tools.owners(incoming);
            var first := if !b.Owns? then b else if !c.Owns? then c else i;
            && (first.Unparsable? <==> AstGuard(tools, base, current, incoming) == Fail(SyntaxReason))
            && (first.DuplicateSymbol? ==> AstGuard(tools, base, current, incoming) == Fail(SymbolReason))
  {}

  // ----- The whole merge

  /** No side is the other or the base: the merge has to look at the edits. */
  predicate Diverged(base: string, current: string, incoming: string) {
    current != incoming && incoming != base && current != base
  }

  ghost predicate EditsAgree(tools: Tools, base: string, current: string, incoming: string) {
    var original := tools.split(base);
    Compatible(tools.diff(original, tools.split(current)), tools.diff(original, tools.split(incoming)))
  }

  lemma EditsAgreeIff(tools: Tools, base: string, current: string, incoming: string)
    requires Trusted(tools)
    ensures var original := tools.split(base);
            EditsAgree(tools, base, current, incoming) <==>
            NoClash(tools.diff(original, tools.split(current)), tools.diff(original, tools.split(incoming)))
  {
    var original := tools.split(base);
    NoClashIffCompatible(|original|, tools.diff(original, tools.split(current)),
      tools.diff(original, tools.split(incoming)));
  }

  /** When a merge ends in each way: a side that did not change gives way to the other; otherwise the
      symbol guard, the edits and the parse of the result decide, in this order. */
  lemma OutcomeIff(tools: Tools, base: string, current: string, incoming: string, python: bool)
    requires Trusted(tools)
    ensures var out := MergeSpec(tools, base, current, incoming, python);
            var diverged := Diverged(base, current, incoming);
            var guarded := python && AstGuard(tools, base, current, incoming).Fail?;
            var agree := EditsAgree(tools, base, current, incoming);
            && (!diverged ==> out == Merged(if current == base then incoming else current))
            && (diverged && guarded ==> out == Conflict(AstGuard(tools, base, current, incoming).reason))
            && (diverged && !guarded ==> (out == Conflict(OverlapReason) <==> !agree))
            && (diverged && !guarded && agree && !python ==> out.Merged?)
            && (out == Conflict(ResultReason) ==> diverged && python && !guarded && agree)
            && (diverged && python && out.Merged? ==> tools.parses(out.text))
  {
    EditsAgreeIff(tools, base, current, incoming);
  }

  /** Edits of neighbouring lines never conflict: if every two different edits replace lines and one ends
      at or before the start of the other, the texts merge. */
  lemma NeighboursMerge(tools: Tools, base: string, current: string, incoming: string, python: bool)
    requires Trusted(tools)
    requires var original := tools.split(base);
             var left, right := tools.diff(original, tools.split(current)), tools.diff(original, tools.split(incoming));
             forall e, f :: e in left && f in right && e != f ==> Apart(e, f)
    ensures MergeSpec(tools, base, current, incoming, python) != Conflict(OverlapReason)
    ensures !python ==> MergeSpec(tools, base, current, incoming, python).Merged?
  {
    var original := tools.split(base);
    var left, right := tools.diff(original, tools.split(current)), tools.diff(original, tools.split(incoming));
    forall e, f | e in left && f in right ensures !Incompatible(e, f) {
      if e != f { ApartIsCompatible(e, f); }
    }
    OutcomeIff(tools, base, current, incoming, python);
    GuardReasons(tools, base, current, incoming);
  }

  lemma GuardReasons(tools: Tools, base: string, current: string, incoming: string)
    ensures AstGuard(tools, base, current, incoming).Fail? ==>
              AstGuard(tools, base, current, incoming).reason in {SyntaxReason, SymbolReason}
  {}

  /** An input: one side changes the first of two lines, the other the second. */
  lemma TwoLinesMerge(a: Line, b: Line, x: Line, y: Line)
    ensures var left, right := [Edit(0, 1, [x])], [Edit(1, 2, [y])];
            && Script(2, 0, left) && Script(2, 0, right) && NoClash(left, right)
            && BothEdits([a, b], left, right) == [x, y]
  {
    var left, right := [Edit(0, 1, [x])], [Edit(1, 2, [y])];
    assert left[1..] == [] && right[1..] == [];
    assert Union(left, right) == [left[0]] + Union([], right) == [left[0], right[0]];
    var es := [left[0], right[0]];
    UnionRises(2, 0, left, right);
    RisingFits(2, 0, 0, es);
    assert es[1..] == right;
    assert Weave([a, b], 1, right) == [a, b][1..1] + [y] + Weave([a, b], 2, []);
    assert Weave([a, b], 0, es) == [a, b][0..0] + [x] + Weave([a, b], 1, right);
  }
}
