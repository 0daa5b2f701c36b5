/**
 * The projection of a value for an external hook: sensitive entries are redacted, deep and
 * wide structures are cut, and strings are cleaned and cut to a number of bytes.
 */
module HookProjection {
  import Utf8

  /** A JSON-like value.  Scalar is a number, a boolean or null, by its printed form; Foreign is
      any other object, by its string form.  The keys of a list's entries are not used. */
  datatype Tree =
    | Scalar(text: string)
    | Text(s: string)
    | Foreign(text: string)
    | Node(table: bool, kids: seq<Kid>)

  datatype Kid = Kid(key: string, value: Tree)

  /** Limits, the cleaning of control characters and framing tags, and the sensitive keys. */
  datatype Policy = Policy(stringBytes: nat, maxDepth: nat, maxItems: nat,
    clean: string -> string, sensitive: string -> bool)

  const REDACTED: string := "<redacted>"
  const MAX_DEPTH: string := "<max-depth>"

  function CleanCut(s: string, p: Policy): string { Utf8.Truncate(p.clean(s), p.stringBytes) }

  /** The key under which a kid is looked at: list entries have none. */
  function KeyOf(table: bool, kid: Kid): string { if table then kid.key else "" }

  function NewKey(table: bool, kid: Kid, p: Policy): string { if table then CleanCut(kid.key, p) else "" }

  predicate HasKey(kids: seq<Kid>, key: string) { exists i :: 0 <= i < |kids| && kids[i].key == key }

  function FirstKids(kids: seq<Kid>, n: nat): seq<Kid> { if n < |kids| then kids[..n] else kids }

  function Sanitize(t: Tree, depth: nat, key: string, p: Policy): Tree
    decreases t, 1
  {
    if p.sensitive(key) then Text(REDACTED)
    else if p.maxDepth <= depth then Text(MAX_DEPTH)
    else match t
      case Scalar(_) => t
      case Text(s) => Text(CleanCut(s, p))
      case Foreign(text) => Text(CleanCut(text, p))
      case Node(table, kids) => Node(table, SanitizeKids(table, FirstKids(kids, p.maxItems), depth + 1, p))
  }

  /** Kids in order; of several kids whose cleaned keys collide the first one is kept. */
  function SanitizeKids(table: bool, kids: seq<Kid>, depth: nat, p: Policy): seq<Kid>
    decreases kids, 0
  {
    if kids == [] then []
    else
      var n := |kids| - 1;
      var before := SanitizeKids(table, kids[..n], depth, p);
      var key := NewKey(table, kids[n], p);
      if table && HasKey(before, key) then before
      else before + [Kid(key, Sanitize(kids[n].value, depth, KeyOf(table, kids[n]), p))]
  }

  // ---- limits ----

  predicate Short(s: string, p: Policy) {
    Utf8.Bytes(s) <= if p.stringBytes < 14 then 14 else p.stringBytes
  }

  predicate DistinctKeys(kids: seq<Kid>) {
    forall i, j :: 0 <= i < j < |kids| ==> kids[i].key != kids[j].key
  }

  /** At most the given levels of nesting, items per level and bytes per string and key; no two
      entries of a table share a key. */
  predicate WithinLimits(t: Tree, levels: nat, p: Policy)
    decreases t, 1
  {
    match t
    case Scalar(_) => true
    case Text(s) => Short(s, p)
    case Foreign(_) => false
    case Node(table, kids) =>
      && 0 < levels && |kids| <= p.maxItems
      && (table ==> DistinctKeys(kids))
      && KidsWithin(kids, levels - 1, p)
  }

  predicate KidsWithin(kids: seq<Kid>, levels: nat, p: Policy)
    decreases kids, 0
  {
    forall i :: 0 <= i < |kids| ==> Short(kids[i].key, p) && WithinLimits(kids[i].value, levels, p)
  }

  lemma FixedTextsAreShort(p: Policy)
    ensures Short(REDACTED, p) && Short(MAX_DEPTH, p) && Short("", p)
  {
    Utf8.BytesOfAscii(REDACTED);
    Utf8.BytesOfAscii(MAX_DEPTH);
  }

  function Levels(depth: nat, p: Policy): nat { if depth < p.maxDepth then p.maxDepth - depth else 0 }

  /** Every projection respects the limits, whatever the value. */
  lemma {:induction false} SanitizeWithin(t: Tree, depth: nat, key: string, p: Policy)
    ensures WithinLimits(Sanitize(t, depth, key, p), Levels(depth, p), p)
    decreases t, 1
  {
    FixedTextsAreShort(p);
    match t {
      case Scalar(_) =>
      case Text(s) => Utf8.TruncateBytes(p.clean(s), p.stringBytes);
      case Foreign(text) => Utf8.TruncateBytes(p.clean(text), p.stringBytes);
      case Node(table, kids) =>
        if depth < p.maxDepth { SanitizeKidsWithin(table, FirstKids(kids, p.maxItems), depth + 1, p); }
    }
  }

  lemma {:induction false} SanitizeKidsWithin(table: bool, kids: seq<Kid>, depth: nat, p: Policy)
    ensures var r := SanitizeKids(table, kids, depth, p);
            |r| <= |kids| && (table ==> DistinctKeys(r)) && KidsWithin(r, Levels(depth, p), p)
    decreases kids, 0
  {
    if kids != [] {
      var n := |kids| - 1;
      SanitizeKidsWithin(table, kids[..n], depth, p);
      SanitizeWithin(kids[n].value, depth, KeyOf(table, kids[n]), p);
      NewKeyShort(table, kids[n], p);
      var kid := Kid(NewKey(table, kids[n], p), Sanitize(kids[n].value, depth, KeyOf(table, kids[n]), p));
      var before := SanitizeKids(table, kids[..n], depth, p);
      if !(table && HasKey(before, kid.key)) { KidAppended(before, kid, table, Levels(depth, p), p); }
    }
  }

  lemma NewKeyShort(table: bool, kid: Kid, p: Policy)
    ensures Short(NewKey(table, kid, p), p)
  {
    Utf8.TruncateBytes(p.clean(kid.key), p.stringBytes);
    FixedTextsAreShort(p);
  }

  lemma KidAppended(before: seq<Kid>, kid: Kid, table: bool, levels: nat, p: Policy)
    requires (table ==> DistinctKeys(before) && !HasKey(before, kid.key)) && KidsWithin(before, levels, p)
    requires Short(kid.key, p) && WithinLimits(kid.value, levels, p)
    ensures (table ==> DistinctKeys(before + [kid])) && KidsWithin(before + [kid], levels, p)
  {}

  // ---- what is left alone ----

  /** A value that already looks like a projection. */
  predicate Conforms(t: Tree, depth: nat, key: string, p: Policy)
    decreases t, 1
  {
    if p.sensitive(key) then t == Text(REDACTED)
    else if p.maxDepth <= depth then t == Text(MAX_DEPTH)
    else match t
      case Scalar(_) => true
      case Text(s) => CleanCut(s, p) == s
      case Foreign(_) => false
      case Node(table, kids) =>
        |kids| <= p.maxItems && (table ==> DistinctKeys(kids)) && KidsConform(table, kids, depth + 1, p)
  }

  predicate KidsConform(table: bool, kids: seq<Kid>, depth: nat, p: Policy)
    decreases kids, 0
  {
    forall i :: 0 <= i < |kids| ==> KidConforms(table, kids[i], depth, p)
  }

  predicate KidConforms(table: bool, kid: Kid, depth: nat, p: Policy)
    decreases kid, 0
  {
    kid.key == NewKey(table, kid, p) && Conforms(kid.value, depth, KeyOf(table, kid), p)
  }

  /** The projection is the value itself exactly when the value conforms. */
  lemma {:induction false} SanitizeFixedIff(t: Tree, depth: nat, key: string, p: Policy)
    ensures Sanitize(t, depth, key, p) == t <==> Conforms(t, depth, key, p)
    decreases t, 1
  {
    if t.Node? && depth < p.maxDepth {
      var first := FirstKids(t.kids, p.maxItems);
      SanitizeKidsShorter(t.table, first, depth + 1, p);
      KidsFixedIff(t.table, first, depth + 1, p);
    }
  }

  lemma {:induction false} SanitizeKidsShorter(table: bool, kids: seq<Kid>, depth: nat, p: Policy)
    ensures |SanitizeKids(table, kids, depth, p)| <= |kids|
  {
    if kids != [] { SanitizeKidsShorter(table, kids[..|kids| - 1], depth, p); }
  }

  lemma {:induction false} KidsFixedIff(table: bool, kids: seq<Kid>, depth: nat, p: Policy)
    ensures SanitizeKids(table, kids, depth, p) == kids <==>
            (table ==> DistinctKeys(kids)) && KidsConform(table, kids, depth, p)
    decreases kids, 0
  {
    if kids != [] {
      var n := |kids| - 1;
      var init := kids[..n];
      assert kids == init + [kids[n]];
      SanitizeKidsShorter(table, init, depth, p);
      KidsFixedIff(table, init, depth, p);
      SanitizeFixedIff(kids[n].value, depth, KeyOf(table, kids[n]), p);
      KidsConformSplit(table, kids, depth, p);
      DistinctSplit(kids);
    }
  }

  lemma KidsConformSplit(table: bool, kids: seq<Kid>, depth: nat, p: Policy)
    requires kids != []
    ensures var n := |kids| - 1;
            KidsConform(table, kids, depth, p) <==>
            KidsConform(table, kids[..n], depth, p) && KidConforms(table, kids[n], depth, p)
  {
    var n := |kids| - 1;
    assert forall i :: 0 <= i < n ==> kids[..n][i] == kids[i];
  }

  lemma DistinctSplit(kids: seq<Kid>)
    requires kids != []
    ensures var n := |kids| - 1;
            DistinctKeys(kids) <==> DistinctKeys(kids[..n]) && !HasKey(kids[..n], kids[n].key)
  {
    assert forall i :: 0 <= i < |kids| - 1 ==> kids[..|kids| - 1][i] == kids[i];
  }

  // ---- a property of every string ----

  /** Every string and every key of the tree satisfies ok. */
  predicate AllTexts(t: Tree, ok: string -> bool)
    decreases t, 1
  {
    match t
    case Scalar(_) => true
    case Text(s) => ok(s)
    case Foreign(_) => false
    case Node(_, kids) => AllKidTexts(kids, ok)
  }

  predicate AllKidTexts(kids: seq<Kid>, ok: string -> bool)
    decreases kids, 0
  {
    forall i :: 0 <= i < |kids| ==> ok(kids[i].key) && AllTexts(kids[i].value, ok)
  }

  /** Whatever holds of every cleaned and cut text and of the fixed texts holds of every string
      and key of a projection. */
  lemma {:induction false} SanitizeAllTexts(t: Tree, depth: nat, key: string, p: Policy, ok: string -> bool)
    requires ok(REDACTED) && ok(MAX_DEPTH) && ok("") && forall s :: ok(CleanCut(s, p))
    ensures AllTexts(Sanitize(t, depth, key, p), ok)
    decreases t, 1
  {
    if t.Node? && depth < p.maxDepth { SanitizeKidTexts(t.table, FirstKids(t.kids, p.maxItems), depth + 1, p, ok); }
  }

  lemma {:induction false} SanitizeKidTexts(table: bool, kids: seq<Kid>, depth: nat, p: Policy, ok: string -> bool)
    requires ok(REDACTED) && ok(MAX_DEPTH) && ok("") && forall s :: ok(CleanCut(s, p))
    ensures AllKidTexts(SanitizeKids(table, kids, depth, p), ok)
    decreases kids, 0
  {
    if kids != [] {
      var n := |kids| - 1;
      SanitizeKidTexts(table, kids[..n], depth, p, ok);
      SanitizeAllTexts(kids[n].value, depth, KeyOf(table, kids[n]), p, ok);
    }
  }

  // ---- which items are kept ----

  function Projected(table: bool, kid: Kid, depth: nat, p: Policy): Kid {
    Kid(NewKey(table, kid, p), Sanitize(kid.value, depth, KeyOf(table, kid), p))
  }

  /** An entry is kept unless it stands in a table after an entry with the same cleaned key. */
  ghost predicate IsKept(table: bool, kids: seq<Kid>, i: nat, p: Policy)
    requires i < |kids|
  {
    table ==> forall j :: 0 <= j < i ==> NewKey(true, kids[j], p) != NewKey(true, kids[i], p)
  }

  /** The positions of the kept entries, in order. */
  ghost function KeptAt(table: bool, kids: seq<Kid>, p: Policy): seq<nat> {
    if kids == [] then []
    else
      var n := |kids| - 1;
      KeptAt(table, kids[..n], p) + if IsKept(table, kids, n, p) then [n] else []
  }

  ghost predicate Ascending(at: seq<nat>, n: nat) {
    && (forall a, b :: 0 <= a < b < |at| ==> at[a] < at[b])
    && (forall a :: 0 <= a < |at| ==> at[a] < n)
  }

  lemma {:induction false} KeptAtIff(table: bool, kids: seq<Kid>, p: Policy)
    ensures Ascending(KeptAt(table, kids, p), |kids|)
    ensures forall i :: 0 <= i < |kids| ==> (i in KeptAt(table, kids, p) <==> IsKept(table, kids, i, p))
  {
    if kids != [] {
      var n := |kids| - 1;
      KeptAtIff(table, kids[..n], p);
      forall i | 0 <= i < n ensures IsKept(table, kids, i, p) <==> IsKept(table, kids[..n], i, p) {
        assert forall j :: 0 <= j <= i ==> kids[..n][j] == kids[j];
      }
    }
  }

  /** In a list every entry is kept. */
  lemma {:induction false} ListKeepsAll(kids: seq<Kid>, p: Policy)
    ensures var at := KeptAt(false, kids, p); |at| == |kids| && forall i :: 0 <= i < |at| ==> at[i] == i
  {
    if kids != [] { ListKeepsAll(kids[..|kids| - 1], p); }
  }

  /** The kept entries are projected one by one, in order. */
  ghost predicate ProjectsKept(r: seq<Kid>, table: bool, kids: seq<Kid>, depth: nat, p: Policy) {
    var at := KeptAt(table, kids, p);
    && |r| == |at| && Ascending(at, |kids|)
    && forall k :: 0 <= k < |r| ==> r[k] == Projected(table, kids[at[k]], depth, p)
  }

  lemma {:induction false} SanitizeKeeps(table: bool, kids: seq<Kid>, depth: nat, p: Policy)
    ensures ProjectsKept(SanitizeKids(table, kids, depth, p), table, kids, depth, p)
  {
    KeptAtIff(table, kids, p);
    if kids != [] {
      var n := |kids| - 1;
      SanitizeKeeps(table, kids[..n], depth, p);
      KeysOfKept(table, kids, depth, p);
    }
  }

  /** Among the entries up to one, the first that has its cleaned key. */
  lemma {:induction false} FirstWith(kids: seq<Kid>, j: nat, p: Policy) returns (i: nat)
    requires j < |kids|
    ensures i <= j && NewKey(true, kids[i], p) == NewKey(true, kids[j], p) && IsKept(true, kids, i, p)
  {
    i := j;
    if !IsKept(true, kids, j, p) {
      var before :| 0 <= before < j && NewKey(true, kids[before], p) == NewKey(true, kids[j], p);
      i := FirstWith(kids, before, p);
    }
  }

  /** A key among the projected entries is the key of an entry. */
  lemma KeyComesFrom(init: seq<Kid>, before: seq<Kid>, depth: nat, p: Policy, key: string) returns (j: nat)
    requires ProjectsKept(before, true, init, depth, p) && HasKey(before, key)
    ensures j < |init| && NewKey(true, init[j], p) == key
  {
    var k :| 0 <= k < |before| && before[k].key == key;
    j := KeptAt(true, init, p)[k];
  }

  /** The key of every entry is among the projected ones. */
  lemma KeyIsThere(init: seq<Kid>, before: seq<Kid>, depth: nat, p: Policy, j: nat)
    requires ProjectsKept(before, true, init, depth, p) && j < |init|
    ensures HasKey(before, NewKey(true, init[j], p))
  {
    var i := FirstWith(init, j, p);
    KeptAtIff(true, init, p);
    var at := KeptAt(true, init, p);
    var k :| 0 <= k < |at| && at[k] == i;
    assert before[k].key == NewKey(true, init[i], p);
  }

  /** An entry collides with what is already there exactly when it is not kept. */
  lemma KeysOfKept(table: bool, kids: seq<Kid>, depth: nat, p: Policy)
    requires kids != []
    requires var init := kids[..|kids| - 1]; ProjectsKept(SanitizeKids(table, init, depth, p), table, init, depth, p)
    ensures var n := |kids| - 1;
            table && HasKey(SanitizeKids(table, kids[..n], depth, p), NewKey(table, kids[n], p))
            <==> !IsKept(table, kids, n, p)
  {
    if table {
      var n := |kids| - 1;
      CollidesIff(kids[..n], SanitizeKids(true, kids[..n], depth, p), depth, p, kids[n]);
      assert forall j :: 0 <= j < n ==> kids[..n][j] == kids[j];
    }
  }

  lemma CollidesIff(init: seq<Kid>, before: seq<Kid>, depth: nat, p: Policy, kid: Kid)
    requires ProjectsKept(before, true, init, depth, p)
    ensures HasKey(before, NewKey(true, kid, p)) <==>
            exists j :: 0 <= j < |init| && NewKey(true, init[j], p) == NewKey(true, kid, p)
  {
    if HasKey(before, NewKey(true, kid, p)) { var j := KeyComesFrom(init, before, depth, p, NewKey(true, kid, p)); }
    if j :| 0 <= j < |init| && NewKey(true, init[j], p) == NewKey(true, kid, p) {
      KeyIsThere(init, before, depth, p, j);
    }
  }

  /** The projection of a list or a table projects the first entries, at most as many as the limit: in a list each of
      them, in a table those whose cleaned key no earlier one has. */
  lemma NodeKeeps(t: Tree, depth: nat, key: string, p: Policy)
    requires t.Node? && !p.sensitive(key) && depth < p.maxDepth
    ensures var r, n := Sanitize(t, depth, key, p), if |t.kids| < p.maxItems then |t.kids| else p.maxItems;
            r.Node? && r.table == t.table && ProjectsKept(r.kids, t.table, t.kids[..n], depth + 1, p)
  {
    var n := if |t.kids| < p.maxItems then |t.kids| else p.maxItems;
    assert FirstKids(t.kids, p.maxItems) == t.kids[..n];
    SanitizeKeeps(t.table, t.kids[..n], depth + 1, p);
  }

  lemma ListKeeps(t: Tree, depth: nat, key: string, p: Policy)
    requires t.Node? && !t.table && !p.sensitive(key) && depth < p.maxDepth
    ensures var r, n := Sanitize(t, depth, key, p), if |t.kids| < p.maxItems then |t.kids| else p.maxItems;
            && r.Node? && |r.kids| == n
            && forall i :: 0 <= i < n ==> r.kids[i] == Kid("", Sanitize(t.kids[i].value, depth + 1, "", p))
  {
    NodeKeeps(t, depth, key, p);
    var n := if |t.kids| < p.maxItems then |t.kids| else p.maxItems;
    ListKeepsAll(t.kids[..n], p);
  }

  /** In a table every one of the first entries is found again under its cleaned key: as the projection of the first
      entry that has this key. */
  lemma TableKeeps(t: Tree, depth: nat, key: string, p: Policy, i: nat) returns (first: nat, k: nat)
    requires t.Node? && t.table && !p.sensitive(key) && depth < p.maxDepth && i < |t.kids| && i < p.maxItems
    ensures first <= i && NewKey(true, t.kids[first], p) == NewKey(true, t.kids[i], p) && IsKept(true, t.kids, first, p)
    ensures var r := Sanitize(t, depth, key, p);
            && r.Node? && k < |r.kids| && r.kids[k].key == CleanCut(t.kids[i].key, p)
            && r.kids[k].value == Sanitize(t.kids[first].value, depth + 1, t.kids[first].key, p)
  {
    NodeKeeps(t, depth, key, p);
    var n := if |t.kids| < p.maxItems then |t.kids| else p.maxItems;
    var kids := t.kids[..n];
    first := FirstWith(t.kids, i, p);
    assert forall j :: 0 <= j <= first ==> kids[j] == t.kids[j];
    KeptAtIff(true, kids, p);
    assert IsKept(true, kids, first, p);
    var at := KeptAt(true, kids, p);
    k :| 0 <= k < |at| && at[k] == first;
  }
}
