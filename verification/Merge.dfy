/**
 Conservative three-way merge of line lists.

 Two edit scripts over one base are checked for conflicts and, when there are none,
 spliced into the base from right to left.  The line splitter, the differ and the Python
 front end are parameters: the theorems hold for every choice that meets `Trusted`.
 */
module Merge {

  type Line = string

  /** Replace base lines `first..last` by `lines`; an insertion has `first == last`. */
  datatype Edit = Edit(first: int, last: int, lines: seq<Line>)

  /** What a Python front end says about one text. */
  datatype Owners = Unparsable | DuplicateSymbol | Owns(symbols: map<string, string>)

  datatype Tools = Tools(
    split: string -> seq<Line>,
    diff: (seq<Line>, seq<Line>) -> seq<Edit>,
    owners: string -> Owners,
    parses: string -> bool)

  datatype Reason = SyntaxReason | SymbolReason | OverlapReason | ResultReason
  datatype Outcome = Merged(text: string) | Conflict(reason: Reason)

  function Join(lines: seq<Line>): string {
    if lines == [] then "" else lines[0] + Join(lines[1..])
  }

  // ----- Edit scripts and what they mean

  /** One side's script: sorted, in range, two edits separated by an untouched base line. */
  ghost predicate Script(n: int, from: int, es: seq<Edit>)
    decreases |es|
  {
    es == [] || (from <= es[0].first <= es[0].last <= n && Script(n, es[0].last + 1, es[1..]))
  }

  /** A script whose edits may touch, as in the union of two scripts. */
  ghost predicate Fits(n: int, from: int, es: seq<Edit>)
    decreases |es|
  {
    es == [] || (from <= es[0].first <= es[0].last <= n && Fits(n, es[0].last, es[1..]))
  }

  /** The simple left-to-right reading of a script: copy up to an edit, emit it, go on. */
  ghost function Weave(base: seq<Line>, from: int, es: seq<Edit>): seq<Line>
    requires 0 <= from <= |base| && Fits(|base|, from, es)
    decreases |es|
  {
    if es == [] then base[from..]
    else base[from..es[0].first] + es[0].lines + Weave(base, es[0].last, es[1..])
  }

  ghost predicate Trusted(tools: Tools) {
    && (forall t :: Join(tools.split(t)) == t)
    && (forall b, t :: Script(|b|, 0, tools.diff(b, t)) && Fits(|b|, 0, tools.diff(b, t))
                       && Weave(b, 0, tools.diff(b, t)) == t)
  }

  // ----- The conflict test

  predicate Clash(e: Edit, f: Edit) {
    var overlaps := (if e.first < f.first then f.first else e.first) < (if e.last < f.last then e.last else f.last);
    var insertion := (e.first == e.last && f.first <= e.first <= f.last)
                     || (f.first == f.last && e.first <= f.first <= e.last);
    e != f && (overlaps || insertion)
  }

  ghost predicate NoClash(left: seq<Edit>, right: seq<Edit>) {
    forall e, f :: e in left && f in right ==> !Clash(e, f)
  }

  /** Both edit sets in base order, an edit made by both sides listed once. */
  ghost function Union(left: seq<Edit>, right: seq<Edit>): seq<Edit>
    decreases |left| + |right|
  {
    if left == [] then right
    else if right == [] then left
    else if left[0] == right[0] then [left[0]] + Union(left[1..], right[1..])
    else if left[0].first < right[0].first then [left[0]] + Union(left[1..], right)
    else [right[0]] + Union(left, right[1..])
  }

  // ----- Re-indexing one side's edits through the other side's

  ghost function Growth(e: Edit): int { |e.lines| - (e.last - e.first) }

  /** How far the edits before base position `pos` push the text at `pos`. */
  ghost function Drift(es: seq<Edit>, pos: int): int {
    if es == [] then 0
    else (if es[0].first < pos then Growth(es[0]) else 0) + Drift(es[1..], pos)
  }

  /** The edits of `right` that `left` did not already make, moved to where their base lines
      now are in the text that `left` produced; `delta` is a drift already accumulated. */
  ghost function Rebase(left: seq<Edit>, right: seq<Edit>, delta: int): seq<Edit> {
    if right == [] then []
    else
      var d := delta + Drift(left, right[0].first);
      (if right[0] in left then [] else [Edit(right[0].first + d, right[0].last + d, right[0].lines)])
      + Rebase(left, right[1..], delta)
  }

  // ----- Basic facts

  lemma {:induction false} ScriptWeaken(n: int, from: int, to: int, es: seq<Edit>)
    requires Script(n, from, es) && to <= from
    ensures Script(n, to, es) && Fits(n, to, es)
    decreases |es|
  {
    if es != [] { ScriptWeaken(n, es[0].last + 1, es[0].last, es[1..]); }
  }

  lemma {:induction false} ScriptBounds(n: int, from: int, es: seq<Edit>, e: Edit)
    requires Script(n, from, es) && e in es
    ensures from <= e.first <= e.last <= n
    decreases |es|
  {
    if e != es[0] { ScriptBounds(n, es[0].last + 1, es[1..], e); }
  }

  /** A weave may start earlier: the untouched lines in front are copied. */
  lemma {:induction false} WeaveFrom(base: seq<Line>, lo: int, from: int, es: seq<Edit>)
    requires 0 <= lo <= from <= |base| && Fits(|base|, from, es)
    ensures Fits(|base|, lo, es)
    ensures Weave(base, lo, es) == base[lo..from] + Weave(base, from, es)
  {
    if es != [] {
      assert base[lo..es[0].first] == base[lo..from] + base[from..es[0].first];
    }
  }

  /** Two distinct edits that do not clash start at different lines, and the earlier ends first. */
  lemma ApartWhenNoClash(e: Edit, f: Edit)
    requires e != f && !Clash(e, f) && e.first <= e.last && f.first <= f.last
    ensures e.first != f.first
    ensures e.first < f.first ==> e.last <= f.first
    ensures f.first < e.first ==> f.last <= e.first
  {
  }

  /** Edits in base order, no two starting at the same line. */
  ghost predicate Rising(n: int, from: int, es: seq<Edit>)
    decreases |es|
  {
    es == [] || (from <= es[0].first <= es[0].last <= n && Rising(n, After(es[0]), es[1..]))
  }

  ghost function After(e: Edit): int { if e.first == e.last then e.last + 1 else e.last }

  lemma {:induction false} UnionRises(n: int, from: int, left: seq<Edit>, right: seq<Edit>)
    requires Script(n, from, left) && Script(n, from, right) && NoClash(left, right)
    ensures Rising(n, from, Union(left, right))
    ensures forall e :: e in Union(left, right) <==> e in left || e in right
    decreases |left| + |right|
  {
    if left == [] {
      ScriptRises(n, from, right);
    } else if right == [] {
      ScriptRises(n, from, left);
    } else {
      var l, r := left[0], right[0];
      assert left == [l] + left[1..] && right == [r] + right[1..];
      if l == r {
        ScriptWeaken(n, l.last + 1, After(l), left[1..]);
        ScriptWeaken(n, l.last + 1, After(l), right[1..]);
        UnionRises(n, After(l), left[1..], right[1..]);
      } else {
        ApartWhenNoClash(l, r);
        if l.first < r.first {
          ScriptWeaken(n, l.last + 1, After(l), left[1..]);
          UnionRises(n, After(l), left[1..], right);
        } else {
          ScriptWeaken(n, r.last + 1, After(r), right[1..]);
          UnionRises(n, After(r), left, right[1..]);
        }
      }
    }
  }

  lemma {:induction false} ScriptRises(n: int, from: int, es: seq<Edit>)
    requires Script(n, from, es)
    ensures Rising(n, from, es)
    decreases |es|
  {
    if es != [] {
      ScriptWeaken(n, es[0].last + 1, After(es[0]), es[1..]);
      ScriptRises(n, After(es[0]), es[1..]);
    }
  }

  lemma {:induction false} RisingFits(n: int, from: int, to: int, es: seq<Edit>)
    requires Rising(n, from, es) && to <= from
    ensures Fits(n, to, es)
    decreases |es|
  {
    if es != [] { RisingFits(n, After(es[0]), es[0].last, es[1..]); }
  }

  lemma {:induction false} RisingBounds(n: int, from: int, es: seq<Edit>, e: Edit)
    requires Rising(n, from, es) && e in es
    ensures from <= e.first
    decreases |es|
  {
    if e != es[0] { RisingBounds(n, After(es[0]), es[1..], e); }
  }

  lemma {:induction false} UnionSymmetric(n: int, from: int, left: seq<Edit>, right: seq<Edit>)
    requires Script(n, from, left) && Script(n, from, right) && NoClash(left, right)
    ensures Union(left, right) == Union(right, left)
    decreases |left| + |right|
  {
    if left != [] && right != [] {
      var l, r := left[0], right[0];
      assert left == [l] + left[1..] && right == [r] + right[1..];
      if l == r {
        UnionSymmetric(n, l.last + 1, left[1..], right[1..]);
      } else {
        ApartWhenNoClash(l, r);
        if l.first < r.first {
          ScriptWeaken(n, l.last + 1, from, left[1..]);
          UnionSymmetric(n, from, left[1..], right);
        } else {
          ScriptWeaken(n, r.last + 1, from, right[1..]);
          UnionSymmetric(n, from, left, right[1..]);
        }
      }
    }
  }

  // ----- The reverse splice equals the left-to-right weave

  function Splice(doc: seq<Line>, e: Edit): seq<Line>
    requires 0 <= e.first <= e.last <= |doc|
  {
    doc[..e.first] + e.lines + doc[e.last..]
  }

  lemma SpliceExtendsWeave(base: seq<Line>, es: seq<Edit>)
    requires es != [] && Fits(|base|, 0, es)
    ensures Fits(|base|, es[0].last, es[1..]) && Fits(|base|, 0, es[1..])
    ensures var doc := Weave(base, 0, es[1..]);
            es[0].last <= |doc| && Splice(doc, es[0]) == Weave(base, 0, es)
  {
    var e := es[0];
    WeaveFrom(base, 0, e.last, es[1..]);
    var doc := Weave(base, 0, es[1..]);
    assert doc == base[..e.last] + Weave(base, e.last, es[1..]);
    assert doc[..e.first] == base[0..e.first];
    assert doc[e.last..] == Weave(base, e.last, es[1..]);
  }

  lemma {:induction false} FitsSuffix(n: int, es: seq<Edit>, k: nat)
    requires Fits(n, 0, es) && k <= |es|
    ensures Fits(n, 0, es[k..])
    decreases k
  {
    if k > 0 {
      FitsSuffix(n, es, k - 1);
      var rest := es[k - 1..];
      assert rest[1..] == es[k..];
      FitsWeaken(n, rest[0].last, 0, rest[1..]);
    }
  }

  lemma FitsWeaken(n: int, from: int, to: int, es: seq<Edit>)
    requires Fits(n, from, es) && to <= from
    ensures Fits(n, to, es)
  {
  }

  // ----- Rebasing

  /** An edit of `left` in front of all of `right` moves every edit of `right` alike. */
  lemma {:induction false} RebaseSkip(left: seq<Edit>, right: seq<Edit>, delta: int)
    requires left != []
    requires forall f :: f in right ==> left[0].first < f.first
    ensures Rebase(left, right, delta) == Rebase(left[1..], right, delta + Growth(left[0]))
    decreases |right|
  {
    if right != [] {
      assert right[0] in right && right[0] != left[0];
      assert left == [left[0]] + left[1..];
      assert forall f :: f in right[1..] ==> f in right;
      RebaseSkip(left, right[1..], delta);
    }
  }

  lemma {:induction false} DriftBefore(left: seq<Edit>, pos: int)
    requires forall e :: e in left ==> pos <= e.first
    ensures Drift(left, pos) == 0
  {
    if left != [] {
      assert left[0] in left && forall e :: e in left[1..] ==> e in left;
      DriftBefore(left[1..], pos);
    }
  }

  /** What remains once the first edit of `left` has been passed. */
  lemma {:induction false} AfterLeftHead(n: int, from: int, left: seq<Edit>, right: seq<Edit>, delta: int)
    returns (rest: seq<Edit>)
    requires Script(n, from, left) && Script(n, from, right) && NoClash(left, right)
    requires right != [] && left != [] && (left[0] == right[0] || left[0].first < right[0].first)
    ensures |rest| <= |right| && Script(n, left[0].last, rest) && NoClash(left[1..], rest)
    ensures Script(n, left[0].last, left[1..]) && Fits(n, left[0].last, left[1..])
    ensures Union(left, right) == [left[0]] + Union(left[1..], rest)
    ensures Interleave(left, right) == Take(left[0], Interleave(left[1..], rest))
    ensures Rebase(left, right, delta) == Rebase(left[1..], rest, delta + Growth(left[0]))
  {
    var l, r := left[0], right[0];
    assert left == [l] + left[1..] && right == [r] + right[1..];
    ScriptWeaken(n, l.last + 1, l.last, left[1..]);
    if l == r {
      rest := right[1..];
      ScriptWeaken(n, l.last + 1, l.last, rest);
      forall f | f in rest ensures l.first < f.first { ScriptBounds(n, l.last + 1, rest, f); }
    } else {
      rest := right;
      ApartWhenNoClash(l, r);
      forall f | f in rest ensures l.first < f.first {
        if f != r { ScriptBounds(n, r.last + 1, right[1..], f); }
      }
    }
    RebaseSkip(left, rest, delta);
  }

  /** What remains once the first edit of `right` has been emitted. */
  lemma {:induction false} AfterRightHead(n: int, from: int, left: seq<Edit>, right: seq<Edit>, delta: int)
    requires Script(n, from, left) && Script(n, from, right) && NoClash(left, right)
    requires right != [] && (left != [] ==> left[0] != right[0] && right[0].first <= left[0].first)
    ensures var r, rest := right[0], right[1..];
            && Script(n, r.last, left) && Fits(n, r.last, left) && Script(n, r.last, rest) && NoClash(left, rest)
            && Union(left, right) == [r] + Union(left, rest)
            && Interleave(left, right) == Bring(r, Interleave(left, rest))
            && Rebase(left, right, delta) == [Edit(r.first + delta, r.last + delta, r.lines)] +
                Rebase(left, rest, delta)
  {
    var r := right[0];
    assert right == [r] + right[1..];
    ScriptWeaken(n, r.last + 1, r.last, right[1..]);
    if left == [] {
      assert Union(left, right) == [r] + Union(left, right[1..]);
    } else {
      assert left == [left[0]] + left[1..];
      ApartWhenNoClash(left[0], r);
      ScriptWeaken(n, left[0].last + 1, left[0].last, left[1..]);
      forall e | e in left ensures r.first < e.first {
        if e != left[0] { ScriptBounds(n, left[0].last + 1, left[1..], e); }
      }
    }
    DriftBefore(left, r.first);
  }

  // ----- The diamond, by induction over one interleaving of the two scripts

  /** Both scripts in base order.  `Take`: an edit of the left side (perhaps made by both);
      `Bring`: an edit of the right side only. */
  datatype Plan = Done | Take(e: Edit, rest: Plan) | Bring(e: Edit, rest: Plan)

  ghost function Interleave(left: seq<Edit>, right: seq<Edit>): Plan
    decreases |left| + |right|
  {
    if left == [] then if right == [] then Done else Bring(right[0], Interleave(left, right[1..]))
    else if right == [] then Take(left[0], Interleave(left[1..], right))
    else if left[0] == right[0] then Take(left[0], Interleave(left[1..], right[1..]))
    else if left[0].first < right[0].first then Take(left[0], Interleave(left[1..], right))
    else Bring(right[0], Interleave(left, right[1..]))
  }

  ghost function All(plan: Plan): seq<Edit> {
    if plan.Done? then [] else [plan.e] + All(plan.rest)
  }

  ghost function Taken(plan: Plan): seq<Edit> {
    match plan
    case Done => []
    case Take(e, rest) => [e] + Taken(rest)
    case Bring(_, rest) => Taken(rest)
  }

  ghost function Moved(plan: Plan, delta: int): seq<Edit> {
    match plan
    case Done => []
    case Take(e, rest) => Moved(rest, delta + Growth(e))
    case Bring(e, rest) => [Edit(e.first + delta, e.last + delta, e.lines)] + Moved(rest, delta)
  }

  lemma {:induction false} InterleaveTaken(left: seq<Edit>, right: seq<Edit>)
    ensures Taken(Interleave(left, right)) == left
    decreases |left| + |right|
  {
    if left == [] {
      if right != [] { InterleaveTaken(left, right[1..]); }
    } else {
      assert left == [left[0]] + left[1..];
      if right == [] || (left[0].first < right[0].first && left[0] != right[0]) { InterleaveTaken(left[1..], right); }
      else if left[0] == right[0] { InterleaveTaken(left[1..], right[1..]); }
      else { InterleaveTaken(left, right[1..]); }
    }
  }

  lemma {:induction false} InterleaveMoved(n: int, from: int, left: seq<Edit>, right: seq<Edit>, delta: int)
    requires Script(n, from, left) && Script(n, from, right) && NoClash(left, right)
    ensures All(Interleave(left, right)) == Union(left, right)
    ensures Moved(Interleave(left, right), delta) == Rebase(left, right, delta)
    decreases |left| + |right|
  {
    if right == [] {
      if left != [] { InterleaveMoved(n, left[0].last + 1, left[1..], right, delta + Growth(left[0])); }
    } else if left != [] && (left[0] == right[0] || left[0].first < right[0].first) {
      var rest := AfterLeftHead(n, from, left, right, delta);
      InterleaveMoved(n, left[0].last, left[1..], rest, delta + Growth(left[0]));
    } else {
      AfterRightHead(n, from, left, right, delta);
      InterleaveMoved(n, right[0].last, left, right[1..], delta);
    }
  }

  lemma WeaveCons(base: seq<Line>, from: int, e: Edit, es: seq<Edit>)
    requires 0 <= from <= |base| && Fits(|base|, from, [e] + es)
    ensures from <= e.first <= e.last <= |base| && Fits(|base|, e.last, es)
    ensures Weave(base, from, [e] + es) == base[from..e.first] + e.lines + Weave(base, e.last, es)
  {
    assert ([e] + es)[1..] == es;
  }

  lemma {:induction false} TakenFits(base: seq<Line>, from: int, plan: Plan)
    requires 0 <= from <= |base| && Fits(|base|, from, All(plan))
    ensures Fits(|base|, from, Taken(plan))
    decreases plan
  {
    if !plan.Done? {
      WeaveCons(base, from, plan.e, All(plan.rest));
      TakenFits(base, plan.e.last, plan.rest);
      if plan.Take? {
        assert ([plan.e] + Taken(plan.rest))[1..] == Taken(plan.rest);
      } else {
        FitsWeaken(|base|, plan.e.last, from, Taken(plan.rest));
      }
    }
  }

  /**
   The heart of the diamond.  After base position `from`, `current` reads as the taken edits
   make it; applying the moved edits there gives what all edits together make of `base`.
   */
  lemma MovedWeaves(base: seq<Line>, current: seq<Line>, from: int, delta: int, plan: Plan)
    requires 0 <= from <= |base| && 0 <= from + delta <= |current|
    requires Fits(|base|, from, All(plan)) && Fits(|base|, from, Taken(plan))
    requires current[from + delta..] == Weave(base, from, Taken(plan))
    ensures Fits(|current|, from + delta, Moved(plan, delta))
    ensures Weave(current, from + delta, Moved(plan, delta)) == Weave(base, from, All(plan))
  {
    MovedWoven(base, current, from, delta, plan);
  }

  ghost predicate Ready(base: seq<Line>, current: seq<Line>, from: int, delta: int, plan: Plan) {
    && 0 <= from <= |base| && 0 <= from + delta <= |current|
    && Fits(|base|, from, All(plan)) && Fits(|base|, from, Taken(plan))
    && current[from + delta..] == Weave(base, from, Taken(plan))
  }

  ghost predicate Woven(base: seq<Line>, current: seq<Line>, from: int, delta: int, plan: Plan) {
    && Ready(base, current, from, delta, plan)
    && Fits(|current|, from + delta, Moved(plan, delta))
    && Weave(current, from + delta, Moved(plan, delta)) == Weave(base, from, All(plan))
  }

  lemma {:induction false} MovedWoven(base: seq<Line>, current: seq<Line>, from: int, delta: int, plan: Plan)
    requires Ready(base, current, from, delta, plan)
    ensures Woven(base, current, from, delta, plan)
    decreases plan
  {
    match plan
    case Done =>
    case Take(e, rest) =>
      ReadyTake(base, current, from, delta, e, rest);
      MovedWoven(base, current, e.last, delta + Growth(e), rest);
      WovenTake(base, current, from, delta, e, rest);
    case Bring(e, rest) =>
      ReadyBring(base, current, from, delta, e, rest);
      MovedWoven(base, current, e.last, delta, rest);
      WovenBring(base, current, from, delta, e, rest);
  }

  lemma ReadyTake(base: seq<Line>, current: seq<Line>, from: int, delta: int, e: Edit, rest: Plan)
    requires Ready(base, current, from, delta, Take(e, rest))
    ensures Ready(base, current, e.last, delta + Growth(e), rest)
  {
    PassTaken(base, current, from, delta, e, rest);
  }

  lemma WovenTake(base: seq<Line>, current: seq<Line>, from: int, delta: int, e: Edit, rest: Plan)
    requires Ready(base, current, from, delta, Take(e, rest))
    requires Woven(base, current, e.last, delta + Growth(e), rest)
    ensures Woven(base, current, from, delta, Take(e, rest))
  {
    PassTaken(base, current, from, delta, e, rest);
    WeaveTaken(base, current, from, delta, e, Moved(rest, delta + Growth(e)), All(rest));
  }

  lemma ReadyBring(base: seq<Line>, current: seq<Line>, from: int, delta: int, e: Edit, rest: Plan)
    requires Ready(base, current, from, delta, Bring(e, rest))
    ensures Ready(base, current, e.last, delta, rest)
  {
    PassBrought(base, current, from, delta, e, rest);
  }

  lemma WovenBring(base: seq<Line>, current: seq<Line>, from: int, delta: int, e: Edit, rest: Plan)
    requires Ready(base, current, from, delta, Bring(e, rest)) && Woven(base, current, e.last, delta, rest)
    ensures Woven(base, current, from, delta, Bring(e, rest))
  {
    PassBrought(base, current, from, delta, e, rest);
    WeaveBrought(base, current, from, delta, e, Moved(rest, delta), All(rest));
  }

  lemma PassTaken(base: seq<Line>, current: seq<Line>, from: int, delta: int, e: Edit, rest: Plan)
    requires 0 <= from <= |base| && 0 <= from + delta <= |current|
    requires Fits(|base|, from, [e] + All(rest)) && Fits(|base|, from, [e] + Taken(rest))
    requires current[from + delta..] == Weave(base, from, [e] + Taken(rest))
    ensures from <= e.first <= e.last <= |base|
    ensures Fits(|base|, e.last, All(rest)) && Fits(|base|, e.last, Taken(rest))
    ensures var next := e.last + delta + Growth(e);
            && from + delta <= next <= |current| && current[from + delta..next] == base[from..e.first] + e.lines
            && current[next..] == Weave(base, e.last, Taken(rest))
  {
    WeaveCons(base, from, e, All(rest));
    WeaveCons(base, from, e, Taken(rest));
    Window(current, from + delta, base[from..e.first] + e.lines, Weave(base, e.last, Taken(rest)));
  }

  lemma PassBrought(base: seq<Line>, current: seq<Line>, from: int, delta: int, e: Edit, rest: Plan)
    requires 0 <= from <= |base| && 0 <= from + delta <= |current|
    requires Fits(|base|, from, [e] + All(rest)) && Fits(|base|, from, Taken(rest))
    requires current[from + delta..] == Weave(base, from, Taken(rest))
    ensures from <= e.first <= e.last <= |base|
    ensures Fits(|base|, e.last, All(rest)) && Fits(|base|, e.last, Taken(rest))
    ensures e.last + delta <= |current| && current[from + delta..e.last + delta] == base[from..e.last]
    ensures current[e.last + delta..] == Weave(base, e.last, Taken(rest))
  {
    WeaveCons(base, from, e, All(rest));
    TakenFits(base, e.last, rest);
    WeaveFrom(base, from, e.last, Taken(rest));
    Window(current, from + delta, base[from..e.last], Weave(base, e.last, Taken(rest)));
  }

  lemma WeaveTaken(base: seq<Line>, current: seq<Line>, from: int, delta: int, e: Edit,
                   moved: seq<Edit>, all: seq<Edit>)
    requires 0 <= from <= e.first <= e.last <= |base|
    requires var next := e.last + delta + Growth(e);
             && 0 <= from + delta <= next <= |current| && current[from + delta..next] == base[from..e.first] + e.lines
             && Fits(|base|, e.last, all) && Fits(|current|, next, moved)
             && Weave(current, next, moved) == Weave(base, e.last, all)
    ensures Fits(|current|, from + delta, moved) && Fits(|base|, from, [e] + all)
    ensures Weave(current, from + delta, moved) == Weave(base, from, [e] + all)
  {
    WeaveFrom(current, from + delta, e.last + delta + Growth(e), moved);
    FitsCons(|base|, from, e, all);
    WeaveCons(base, from, e, all);
  }

  lemma FitsCons(n: int, from: int, e: Edit, es: seq<Edit>)
    requires from <= e.first <= e.last <= n && Fits(n, e.last, es)
    ensures Fits(n, from, [e] + es)
  {
    assert ([e] + es)[1..] == es;
  }

  lemma WeaveBrought(base: seq<Line>, current: seq<Line>, from: int, delta: int, e: Edit,
                     moved: seq<Edit>, all: seq<Edit>)
    requires 0 <= from <= e.first <= e.last <= |base| && 0 <= from + delta && e.last + delta <= |current|
    requires Fits(|base|, e.last, all) && Fits(|current|, e.last + delta, moved)
    requires current[from + delta..e.last + delta] == base[from..e.last]
    requires Weave(current, e.last + delta, moved) == Weave(base, e.last, all)
    ensures var m := Edit(e.first + delta, e.last + delta, e.lines);
            && Fits(|current|, from + delta, [m] + moved) && Fits(|base|, from, [e] + all)
            && Weave(current, from + delta, [m] + moved) == Weave(base, from, [e] + all)
  {
    var m := Edit(e.first + delta, e.last + delta, e.lines);
    FitsCons(|current|, from + delta, m, moved);
    FitsCons(|base|, from, e, all);
    WeaveCons(current, from + delta, m, moved);
    WeaveCons(base, from, e, all);
    SliceHead(current, from + delta, e.last + delta, e.first + delta);
    SliceHead(base, from, e.last, e.first);
  }

  /** Applying the rebased right edits to what the left script made gives both edit sets. */
  lemma RebaseIsUnion(base: seq<Line>, left: seq<Edit>, right: seq<Edit>)
    requires Script(|base|, 0, left) && Script(|base|, 0, right) && NoClash(left, right)
    requires Fits(|base|, 0, left)
    ensures Fits(|base|, 0, Union(left, right))
    ensures var current := Weave(base, 0, left);
            && Fits(|current|, 0, Rebase(left, right, 0))
            && Weave(current, 0, Rebase(left, right, 0)) == Weave(base, 0, Union(left, right))
  {
    UnionRises(|base|, 0, left, right);
    RisingFits(|base|, 0, 0, Union(left, right));
    InterleaveTaken(left, right);
    InterleaveMoved(|base|, 0, left, right, 0);
    var current := Weave(base, 0, left);
    assert current[0..] == current;
    MovedWeaves(base, current, 0, 0, Interleave(left, right));
  }

  lemma SliceHead(text: seq<Line>, i: int, j: int, k: int)
    requires 0 <= i <= k <= j <= |text|
    ensures text[i..k] == text[i..j][..k - i]
  {
  }

  lemma Window(text: seq<Line>, here: int, step: seq<Line>, tail: seq<Line>)
    requires 0 <= here <= |text| && text[here..] == step + tail
    ensures here + |step| <= |text|
    ensures text[here..here + |step|] == step && text[here + |step|..] == tail
  {
    assert text[here..here + |step|] == text[here..][..|step|];
    assert text[here + |step|..] == text[here..][|step|..];
  }

  // ----- sorted(set(left + right), reverse=True)

  function StringLess(a: string, b: string): bool {
    b != [] && (a == [] || a[0] < b[0] || (a[0] == b[0] && StringLess(a[1..], b[1..])))
  }

  function LinesLess(a: seq<Line>, b: seq<Line>): bool {
    b != [] && (a == [] || StringLess(a[0], b[0]) || (a[0] == b[0] && LinesLess(a[1..], b[1..])))
  }

  /** Tuple order on (first, last, lines). */
  predicate EditLess(e: Edit, f: Edit) {
    e.first < f.first
    || (e.first == f.first && (e.last < f.last || (e.last == f.last && LinesLess(e.lines, f.lines))))
  }

  function InsertDescending(e: Edit, order: seq<Edit>): seq<Edit> {
    if order == [] then [e]
    else if order[0] == e then order
    else if EditLess(order[0], e) then [e] + order
    else [order[0]] + InsertDescending(e, order[1..])
  }

  function SortDescending(es: seq<Edit>): seq<Edit> {
    if es == [] then [] else InsertDescending(es[0], SortDescending(es[1..]))
  }

  ghost predicate Falling(order: seq<Edit>) {
    order == [] || ((forall f :: f in order[1..] ==> f.first < order[0].first) && Falling(order[1..]))
  }

  ghost predicate StartsDiffer(es: seq<Edit>) {
    forall e, f :: e in es && f in es && e != f ==> e.first != f.first
  }

  lemma {:induction false} InsertSorts(e: Edit, order: seq<Edit>)
    requires Falling(order) && forall f :: f in order && f != e ==> f.first != e.first
    ensures var r := InsertDescending(e, order);
            Falling(r) && forall f :: f in r <==> f == e || f in order
  {
    if order != [] {
      assert order == [order[0]] + order[1..];
      if order[0] != e {
        if EditLess(order[0], e) {
          assert ([e] + order)[1..] == order;
        } else {
          InsertSorts(e, order[1..]);
          var rest := InsertDescending(e, order[1..]);
          assert ([order[0]] + rest)[1..] == rest;
        }
      }
    }
  }

  lemma {:induction false} SortSorts(es: seq<Edit>)
    requires StartsDiffer(es)
    ensures Falling(SortDescending(es)) && forall e :: e in SortDescending(es) <==> e in es
  {
    if es != [] {
      assert es == [es[0]] + es[1..];
      SortSorts(es[1..]);
      InsertSorts(es[0], SortDescending(es[1..]));
    }
  }

  lemma {:induction false} FallingUnique(a: seq<Edit>, b: seq<Edit>)
    requires Falling(a) && Falling(b) && forall e :: e in a <==> e in b
    ensures a == b
  {
    assert (a == [] || a[0] in b) && (b == [] || b[0] in a);
    if a != [] && b != [] {
      assert a == [a[0]] + a[1..] && b == [b[0]] + b[1..];
      assert a[0] in b && b[0] in a;
      assert a[0] == b[0];
      forall e ensures e in a[1..] <==> e in b[1..] {
        if e in a[1..] { assert e in a && e != b[0]; }
        if e in b[1..] { assert e in b && e != a[0]; }
      }
      FallingUnique(a[1..], b[1..]);
    }
  }

  ghost function Reverse(es: seq<Edit>): seq<Edit> {
    if es == [] then [] else Reverse(es[1..]) + [es[0]]
  }

  lemma {:induction false} ReverseAt(es: seq<Edit>, i: nat)
    requires i < |es|
    ensures |Reverse(es)| == |es| && Reverse(es)[i] == es[|es| - 1 - i]
  {
    if |es| > 1 { ReverseAt(es[1..], if i < |es| - 1 then i else 0); }
  }

  lemma {:induction false} FallingSnoc(a: seq<Edit>, e: Edit)
    requires Falling(a) && forall f :: f in a ==> e.first < f.first
    ensures Falling(a + [e])
  {
    if a != [] {
      assert a == [a[0]] + a[1..];
      FallingSnoc(a[1..], e);
      assert (a + [e])[1..] == a[1..] + [e];
    }
  }

  lemma {:induction false} ReverseFalls(n: int, from: int, es: seq<Edit>)
    requires Rising(n, from, es)
    ensures Falling(Reverse(es)) && forall e :: e in Reverse(es) <==> e in es
    decreases |es|
  {
    if es != [] {
      assert es == [es[0]] + es[1..];
      ReverseFalls(n, After(es[0]), es[1..]);
      forall f | f in es[1..] ensures es[0].first < f.first { RisingBounds(n, After(es[0]), es[1..], f); }
      FallingSnoc(Reverse(es[1..]), es[0]);
    }
  }

  lemma {:induction false} FallingDiffer(order: seq<Edit>)
    requires Falling(order)
    ensures StartsDiffer(order)
  {
    if order != [] {
      assert order == [order[0]] + order[1..];
      FallingDiffer(order[1..]);
    }
  }

  /** Sorting the deduplicated edits in reverse lists the union of both scripts backwards. */
  lemma SortIsReversedUnion(n: int, left: seq<Edit>, right: seq<Edit>)
    requires Script(n, 0, left) && Script(n, 0, right) && NoClash(left, right)
    ensures SortDescending(left + right) == Reverse(Union(left, right))
  {
    var u := Union(left, right);
    UnionRises(n, 0, left, right);
    ReverseFalls(n, 0, u);
    FallingDiffer(Reverse(u));
    assert forall e :: e in left + right <==> e in Reverse(u);
    SortSorts(left + right);
    FallingUnique(SortDescending(left + right), Reverse(u));
  }

  // ----- The Python symbol guard

  /** Symbols whose definition differs between two texts. */
  function Changed(m: map<string, string>, m': map<string, string>): set<string> {
    set k | k in m.Keys + m'.Keys && !(k in m && k in m' && m[k] == m'[k])
  }

  /** The same symbol, or one nested inside the other. */
  predicate Related(a: string, b: string) {
    a == b || b + "." <= a || a + "." <= b
  }

  ghost predicate SymbolsClash(left: set<string>, right: set<string>) {
    exists a, b :: a in left && b in right && Related(a, b)
  }

  datatype GuardResult = Pass | Fail(reason: Reason)

  function FrontEndFailure(o: Owners): (r: GuardResult) {
    match o
    case Unparsable => Fail(SyntaxReason)
    case DuplicateSymbol => Fail(SymbolReason)
    case Owns(_) => Pass
  }

  ghost function AstGuard(tools: Tools, base: string, current: string, incoming: string): GuardResult {
    var b, c, i := tools.owners(base), tools.owners(current), tools.owners(incoming);
    if FrontEndFailure(b).Fail? then FrontEndFailure(b)
    else if FrontEndFailure(c).Fail? then FrontEndFailure(c)
    else if FrontEndFailure(i).Fail? then FrontEndFailure(i)
    else if SymbolsClash(Changed(b.symbols, c.symbols), Changed(b.symbols, i.symbols)) then Fail(SymbolReason)
    else Pass
  }

  // ----- The whole merge

  ghost function BothEdits(base: seq<Line>, left: seq<Edit>, right: seq<Edit>): seq<Line>
    requires Script(|base|, 0, left) && Script(|base|, 0, right) && NoClash(left, right)
  {
    UnionRises(|base|, 0, left, right);
    RisingFits(|base|, 0, 0, Union(left, right));
    Weave(base, 0, Union(left, right))
  }

  /** What a merge must produce, said without sorting or splicing. */
  ghost function MergeSpec(tools: Tools, base: string, current: string, incoming: string, python: bool): Outcome
    requires Trusted(tools)
  {
    if current == incoming || incoming == base then Merged(current)
    else if current == base then Merged(incoming)
    else if python && AstGuard(tools, base, current, incoming).Fail? then
      Conflict(AstGuard(tools, base, current, incoming).reason)
    else
      var original := tools.split(base);
      var left, right := tools.diff(original, tools.split(current)), tools.diff(original, tools.split(incoming));
      if !NoClash(left, right) then Conflict(OverlapReason)
      else
        var text := Join(BothEdits(original, left, right));
        if python && !tools.parses(text) then Conflict(ResultReason) else Merged(text)
  }

  method HasClash(left: seq<Edit>, right: seq<Edit>) returns (clash: bool)
    ensures clash <==> !NoClash(left, right)
  {
    for i := 0 to |left|
      invariant forall e, f :: e in left[..i] && f in right ==> !Clash(e, f)
    {
      for j := 0 to |right|
        invariant forall f :: f in right[..j] ==> !Clash(left[i], f)
      {
        if Clash(left[i], right[j]) { return true; }
        assert right[..j + 1] == right[..j] + [right[j]];
      }
      assert right[..|right|] == right;
      assert left[..i + 1] == left[..i] + [left[i]];
    }
    assert left[..|left|] == left;
    return false;
  }

  /** The splice from right to left: each edit goes in before the ones already placed. */
  method SpliceAll(original: seq<Line>, order: seq<Edit>, ghost es: seq<Edit>) returns (merged: seq<Line>)
    requires Fits(|original|, 0, es) && order == Reverse(es)
    ensures merged == Weave(original, 0, es)
  {
    merged := original;
    if es != [] { ReverseAt(es, 0); }
    assert es[|es|..] == [] && original[0..] == original;
    for i := 0 to |order|
      invariant |order| == |es| && Fits(|original|, 0, es[|es| - i..])
      invariant merged == Weave(original, 0, es[|es| - i..])
    {
      ReverseAt(es, i);
      ghost var rest := es[|es| - 1 - i..];
      assert rest[0] == order[i] && rest[1..] == es[|es| - i..];
      FitsSuffix(|original|, es, |es| - 1 - i);
      SpliceExtendsWeave(original, rest);
      merged := Splice(merged, order[i]);
    }
    assert es[0..] == es;
  }

  method ThreeWayMerge(tools: Tools, base: string, current: string, incoming: string, python: bool)
    returns (out: Outcome)
    requires Trusted(tools)
    ensures out == MergeSpec(tools, base, current, incoming, python)
  {
    if current == incoming || incoming == base { return Merged(current); }
    if current == base { return Merged(incoming); }
    if python {
      var guard := CheckSymbols(tools, base, current, incoming);
      if guard.Fail? { return Conflict(guard.reason); }
    }
    var original := tools.split(base);
    var left, right := tools.diff(original, tools.split(current)), tools.diff(original, tools.split(incoming));
    var clash := HasClash(left, right);
    if clash { return Conflict(OverlapReason); }
    UnionRises(|original|, 0, left, right);
    RisingFits(|original|, 0, 0, Union(left, right));
    SortIsReversedUnion(|original|, left, right);
    var merged := SpliceAll(original, SortDescending(left + right), Union(left, right));
    var text := Join(merged);
    if python && !tools.parses(text) { return Conflict(ResultReason); }
    return Merged(text);
  }

  method CheckSymbols(tools: Tools, base: string, current: string, incoming: string) returns (r: GuardResult)
    ensures r == AstGuard(tools, base, current, incoming)
  {
    var b, c, i := tools.owners(base), tools.owners(current), tools.owners(incoming);
    if !b.Owns? { return FrontEndFailure(b); }
    if !c.Owns? { return FrontEndFailure(c); }
    if !i.Owns? { return FrontEndFailure(i); }
    var left, right := Changed(b.symbols, c.symbols), Changed(b.symbols, i.symbols);
    if exists a | a in left :: exists d | d in right :: Related(a, d) { return Fail(SymbolReason); }
    return Pass;
  }

  // ----- What a merge guarantees

  /** Which side is called current does not matter: the same text, or a conflict both ways. */
  lemma MergeSymmetric(tools: Tools, base: string, current: string, incoming: string, python: bool)
    requires Trusted(tools)
    ensures var one := MergeSpec(tools, base, current, incoming, python);
            var two := MergeSpec(tools, base, incoming, current, python);
            one == two || (one.Conflict? && two.Conflict? && python)
  {
    var original := tools.split(base);
    var left, right := tools.diff(original, tools.split(current)), tools.diff(original, tools.split(incoming));
    forall e, f ensures Clash(e, f) == Clash(f, e) {}
    assert NoClash(left, right) == NoClash(right, left);
    if NoClash(left, right) { UnionSymmetric(|original|, 0, left, right); }
    forall a, b ensures Related(a, b) == Related(b, a) {}
    forall m, m' ensures SymbolsClash(m, m') == SymbolsClash(m', m) {}
  }

  /** A merged text is each side with the other side's edits re-indexed onto it. */
  lemma MergeIsEitherRebase(tools: Tools, base: string, current: string, incoming: string, python: bool)
    requires Trusted(tools) && current != incoming && incoming != base && current != base
    requires MergeSpec(tools, base, current, incoming, python).Merged?
    ensures var text := MergeSpec(tools, base, current, incoming, python).text;
            var original, ours, theirs := tools.split(base), tools.split(current), tools.split(incoming);
            var left, right := tools.diff(original, ours), tools.diff(original, theirs);
            && Fits(|ours|, 0, Rebase(left, right, 0)) && Fits(|theirs|, 0, Rebase(right, left, 0))
            && text == Join(Weave(ours, 0, Rebase(left, right, 0)))
            && text == Join(Weave(theirs, 0, Rebase(right, left, 0)))
  {
    var original, ours, theirs := tools.split(base), tools.split(current), tools.split(incoming);
    var left, right := tools.diff(original, ours), tools.diff(original, theirs);
    RebaseIsUnion(original, left, right);
    forall e, f ensures Clash(e, f) == Clash(f, e) {}
    UnionSymmetric(|original|, 0, left, right);
    RebaseIsUnion(original, right, left);
  }
}
