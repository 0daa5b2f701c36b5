/**
 * Permission rules: whether a command line, or another argument of a tool, is covered by the
 * allow, deny or ask rules.
 */
module ShellRules {
  import opened Wrappers
  import opened ShellSplit
  import ShellStrip

  datatype Behavior = Allow | Deny | Ask
  datatype Origin = User | Project | Local | Session | Cli | Managed

  /** A rule without content covers every call of its tool. */
  datatype Rule = Rule(tool: string, content: Option<string>, origin: Origin)
  datatype RuleSet = RuleSet(allow: seq<Rule>, deny: seq<Rule>, ask: seq<Rule>)

  /** White space, word splitting, the number test, and whether a pattern covers one command or
      one argument. */
  datatype Matcher = Matcher(space: char -> bool, words: string -> seq<string>, numeric: string -> bool,
    covers: (string, string) -> bool, coversArgument: (string, string) -> bool)

  /** What a call offers to the rules: its command line, and its path, address or target if any. */
  datatype Arguments = Arguments(command: string, candidate: Option<string>)

  predicate IsShell(tool: string) { tool == "bash" || tool == "powershell" }

  function Join(words: seq<string>): string {
    if words == [] then [] else if |words| == 1 then words[0] else words[0] + " " + Join(words[1..])
  }

  function Normalize(sub: string, m: Matcher): string {
    Trim(Join(ShellStrip.Normal(m.words(sub), ShellStrip.Words(m.numeric))), m.space)
  }

  /** An allow pattern covers the normalised sub-command. */
  predicate Covered(sub: string, patterns: seq<string>, m: Matcher) {
    exists i :: 0 <= i < |patterns| && m.covers(patterns[i], Normalize(sub, m))
  }

  predicate HitBy(sub: string, pattern: string, m: Matcher) {
    || (Trim(sub, m.space) != [] && m.covers(pattern, Trim(sub, m.space)))
    || (Normalize(sub, m) != [] && m.covers(pattern, Normalize(sub, m)))
  }

  /** A deny or ask pattern covers the sub-command as written or normalised. */
  predicate Hit(sub: string, patterns: seq<string>, m: Matcher) {
    exists i :: 0 <= i < |patterns| && HitBy(sub, patterns[i], m)
  }

  predicate AnyOf(texts: seq<string>, test: string -> bool) { exists i :: 0 <= i < |texts| && test(texts[i]) }
  predicate AllOf(texts: seq<string>, test: string -> bool) { forall i :: 0 <= i < |texts| ==> test(texts[i]) }

  function CoverTest(patterns: seq<string>, m: Matcher): string -> bool { sub => Covered(sub, patterns, m) }
  function HitTest(patterns: seq<string>, m: Matcher): string -> bool { sub => Hit(sub, patterns, m) }

  /** Allow needs every sub-command covered; deny and ask need one that is hit. */
  predicate MatchParts(subs: seq<string>, patterns: seq<string>, behavior: Behavior, m: Matcher) {
    if behavior == Allow then subs != [] && AllOf(subs, CoverTest(patterns, m))
    else AnyOf(subs, HitTest(patterns, m))
  }

  predicate MatchShell(command: string, patterns: seq<string>, behavior: Behavior, m: Matcher) {
    MatchParts(Split(command, m.space), patterns, behavior, m)
  }

  method Every(texts: seq<string>, test: string -> bool) returns (r: bool)
    ensures r == AllOf(texts, test)
  {
    for i := 0 to |texts|
      invariant forall j :: 0 <= j < i ==> test(texts[j])
    {
      if !test(texts[i]) { return false; }
    }
    return true;
  }

  method One(texts: seq<string>, test: string -> bool) returns (r: bool)
    ensures r == AnyOf(texts, test)
  {
    for i := 0 to |texts|
      invariant forall j :: 0 <= j < i ==> !test(texts[j])
    {
      if test(texts[i]) { return true; }
    }
    return false;
  }

  method MatchShellCommand(command: string, patterns: seq<string>, behavior: Behavior, m: Matcher) returns (r: bool)
    ensures r == MatchShell(command, patterns, behavior, m)
  {
    var subs := SplitSubcommands(command, m.space);
    if subs == [] { return false; }
    if behavior == Allow {
      r := Every(subs, CoverTest(patterns, m));
    } else {
      r := One(subs, HitTest(patterns, m));
    }
  }

  // ---- what matching means ----

  /** A text that a deny or ask rule is held against: the sub-command as written, or normalised. */
  ghost predicate Shown(text: string, sub: string, m: Matcher) {
    text != [] && (text == Trim(sub, m.space) || text == Normalize(sub, m))
  }

  lemma HitIff(sub: string, patterns: seq<string>, m: Matcher)
    ensures Hit(sub, patterns, m) <==> exists p, text :: p in patterns && Shown(text, sub, m) && m.covers(p, text)
  {
    if Hit(sub, patterns, m) {
      var i :| 0 <= i < |patterns| && HitBy(sub, patterns[i], m);
      var text := if Trim(sub, m.space) != [] && m.covers(patterns[i], Trim(sub, m.space)) then Trim(sub, m.space)
                  else Normalize(sub, m);
      assert patterns[i] in patterns && Shown(text, sub, m);
    }
    if p, text :| p in patterns && Shown(text, sub, m) && m.covers(p, text) {
      var i :| 0 <= i < |patterns| && patterns[i] == p;
      assert HitBy(sub, patterns[i], m);
    }
  }

  /** A command is denied, or asked about, if and only if a pattern covers some sub-command as written or
      normalised, whichever is not blank. */
  lemma DenyMatchIff(command: string, patterns: seq<string>, behavior: Behavior, m: Matcher)
    requires behavior != Allow
    ensures MatchShell(command, patterns, behavior, m) <==>
            exists sub, p, text :: && sub in Split(command, m.space) && p in patterns
                                   && Shown(text, sub, m) && m.covers(p, text)
  {
    var subs := Split(command, m.space);
    forall i | 0 <= i < |subs|
      ensures HitTest(patterns, m)(subs[i]) <==>
              exists p, text :: p in patterns && Shown(text, subs[i], m) && m.covers(p, text)
    {
      HitIff(subs[i], patterns, m);
    }
    if sub, p, text :| sub in subs && p in patterns && Shown(text, sub, m) && m.covers(p, text) {
      var i :| 0 <= i < |subs| && subs[i] == sub;
      assert HitTest(patterns, m)(subs[i]);
    }
  }

  /** A command is allowed if and only if it has a sub-command and of each the normalised text, and no other,
      is covered. */
  lemma AllowMatchIff(command: string, patterns: seq<string>, m: Matcher)
    ensures MatchShell(command, patterns, Allow, m) <==>
            && Split(command, m.space) != []
            && forall sub :: sub in Split(command, m.space) ==>
                 exists p :: p in patterns && m.covers(p, Normalize(sub, m))
  {
    var subs := Split(command, m.space);
    forall sub ensures CoverTest(patterns, m)(sub) <==> exists p :: p in patterns && m.covers(p, Normalize(sub, m)) {
      CoveredIff(sub, patterns, m);
    }
    AllOfIn(subs, CoverTest(patterns, m));
  }

  lemma CoveredIff(sub: string, patterns: seq<string>, m: Matcher)
    ensures Covered(sub, patterns, m) <==> exists p :: p in patterns && m.covers(p, Normalize(sub, m))
  {
    CoversSome(Normalize(sub, m), patterns, m);
  }

  lemma CoversSome(text: string, patterns: seq<string>, m: Matcher)
    ensures (exists i :: 0 <= i < |patterns| && m.covers(patterns[i], text)) <==>
            exists p :: p in patterns && m.covers(p, text)
  {
    if p :| p in patterns && m.covers(p, text) {
      var i :| 0 <= i < |patterns| && patterns[i] == p;
    }
  }

  lemma AllOfIn(texts: seq<string>, test: string -> bool)
    ensures AllOf(texts, test) <==> forall text :: text in texts ==> test(text)
  {
    assert forall i :: 0 <= i < |texts| ==> texts[i] in texts;
  }

  /** A sub-command whose words become those of a denied text when removable words in front are taken away
      is denied. */
  lemma DeniedBehindRemovable(command: string, sub: string, plain: seq<string>, pattern: string, patterns: seq<string>,
    behavior: Behavior, m: Matcher)
    requires behavior != Allow && sub in Split(command, m.space) && pattern in patterns
    requires ShellStrip.Normal(m.words(sub), ShellStrip.Words(m.numeric)) == plain
    requires Trim(Join(plain), m.space) != [] && m.covers(pattern, Trim(Join(plain), m.space))
    ensures MatchShell(command, patterns, behavior, m)
  {
    assert Shown(Normalize(sub, m), sub, m);
    DenyMatchIff(command, patterns, behavior, m);
  }

  /** So behind a wrapper with its number: whatever is denied without them is denied with them. */
  lemma DeniedBehindWrapper(sub: string, wrapper: string, number: string, plain: seq<string>, pattern: string,
    patterns: seq<string>, behavior: Behavior, m: Matcher)
    requires behavior != Allow && pattern in patterns && Split(sub, m.space) == [sub]
    requires wrapper in ShellStrip.WRAPPERS && wrapper != "nohup" && m.numeric(number) && !ShellStrip.IsFlag(number)
    requires m.words(sub) == [wrapper, number] + plain
    requires ShellStrip.StripWrappers(plain, ShellStrip.Words(m.numeric)) == plain
    requires Trim(Join(plain), m.space) != [] && m.covers(pattern, Trim(Join(plain), m.space))
    ensures MatchShell(sub, patterns, behavior, m)
  {
    var w := ShellStrip.Words(m.numeric);
    ShellStrip.WrapperStripped(wrapper, number, plain, w);
    DeniedBehindRemovable(sub, sub, plain, pattern, patterns, behavior, m);
  }

  lemma JoinThree(a: string, b: string, c: string)
    ensures Join([a, b, c]) == a + " " + b + " " + c
  {
    assert [a, b, c][1..] == [b, c] && [b, c][1..] == [c];
    assert Join([b, c]) == b + " " + c;
    assert a + " " + (b + " " + c) == a + " " + b + " " + c;
  }

  lemma TrimSame(text: string, space: char -> bool)
    requires text != [] && !space(text[0]) && !space(text[|text| - 1])
    ensures Trim(text, space) == text
  {}

  lemma RemovalWords(w: ShellStrip.Words)
    ensures var plain := ["rm", "-rf", "build"];
            Join(plain) == "rm -rf build" && ShellStrip.StripWrappers(plain, w) == plain
  {
    JoinThree("rm", "-rf", "build");
    assert ShellStrip.Taken(["rm", "-rf", "build"], w) == 0;
  }

  lemma TimeoutIsWrapper()
    ensures "timeout" in ShellStrip.WRAPPERS && "timeout" != "nohup" && !ShellStrip.IsFlag("5")
  {}

  /** An input: a rule that denies `rm -rf build` denies it behind `timeout 5`. */
  lemma RemovalBehindTimeout(sub: string, plain: seq<string>, text: string, pattern: string, m: Matcher)
    requires plain == ["rm", "-rf", "build"] && text == "rm -rf build"
    requires Split(sub, m.space) == [sub] && m.words(sub) == ["timeout", "5"] + plain && m.numeric("5")
    requires !m.space('r') && !m.space('d') && m.covers(pattern, text)
    ensures MatchShell(sub, [pattern], Deny, m)
  {
    var w := ShellStrip.Words(m.numeric);
    RemovalWords(w);
    TrimSame(text, m.space);
    TimeoutIsWrapper();
    ShellStrip.WrapperStripped("timeout", "5", plain, w);
    DeniedBehindRemovable(sub, sub, plain, pattern, [pattern], Deny, m);
  }

  // ---- compound commands ----

  lemma TestsConcat(a: seq<string>, b: seq<string>, test: string -> bool)
    ensures AnyOf(a + b, test) <==> AnyOf(a, test) || AnyOf(b, test)
    ensures AllOf(a + b, test) <==> AllOf(a, test) && AllOf(b, test)
  {
    var s := a + b;
    assert forall i :: 0 <= i < |a| ==> s[i] == a[i];
    assert forall i :: 0 <= i < |b| ==> s[|a| + i] == b[i];
    assert forall i :: |a| <= i < |s| ==> s[i] == b[i - |a|];
  }

  lemma TestOne(text: string, test: string -> bool)
    ensures AnyOf([text], test) == test(text) == AllOf([text], test)
  {
    assert [text][0] == text;
  }

  lemma MatchPartsConcat(a: seq<string>, b: seq<string>, patterns: seq<string>, behavior: Behavior, m: Matcher)
    ensures behavior != Allow ==>
              (MatchParts(a + b, patterns, behavior, m) <==>
               MatchParts(a, patterns, behavior, m) || MatchParts(b, patterns, behavior, m))
    ensures behavior == Allow ==>
              (MatchParts(a + b, patterns, behavior, m) <==>
               && a + b != [] && (a == [] || MatchParts(a, patterns, behavior, m))
               && (b == [] || MatchParts(b, patterns, behavior, m)))
  {
    TestsConcat(a, b, CoverTest(patterns, m));
    TestsConcat(a, b, HitTest(patterns, m));
  }

  /** A compound command is denied (or asked about) if and only if one of its sides is. */
  lemma CompoundDenied(l: string, op: string, r: string, patterns: seq<string>, behavior: Behavior, m: Matcher)
    requires Separates(l, op, r) && behavior != Allow
    ensures MatchShell(l + op + r, patterns, behavior, m) <==>
            MatchShell(l, patterns, behavior, m) || MatchShell(r, patterns, behavior, m)
  {
    SplitCompose(l, op, r, m.space);
    MatchPartsConcat(Split(l, m.space), Split(r, m.space), patterns, behavior, m);
  }

  /** A compound command is allowed if and only if every side that is not blank is, and one is
      not blank. */
  lemma CompoundAllowed(l: string, op: string, r: string, patterns: seq<string>, m: Matcher)
    requires Separates(l, op, r)
    ensures MatchShell(l + op + r, patterns, Allow, m) <==>
            && (Split(l, m.space) == [] || MatchShell(l, patterns, Allow, m))
            && (Split(r, m.space) == [] || MatchShell(r, patterns, Allow, m))
            && !(Split(l, m.space) == [] && Split(r, m.space) == [])
  {
    SplitCompose(l, op, r, m.space);
    MatchPartsConcat(Split(l, m.space), Split(r, m.space), patterns, Allow, m);
  }

  /** A command is decided by its sub-commands, each taken as a command of its own. */
  lemma DecidedBySubcommands(command: string, patterns: seq<string>, behavior: Behavior, m: Matcher)
    requires !m.space('\'') && !m.space('"')
    ensures var subs := Split(command, m.space);
            MatchShell(command, patterns, behavior, m) <==>
              if behavior == Allow then
                subs != [] && forall i :: 0 <= i < |subs| ==> MatchShell(subs[i], patterns, Allow, m)
              else exists i :: 0 <= i < |subs| && MatchShell(subs[i], patterns, behavior, m)
  {
    var subs := Split(command, m.space);
    forall i | 0 <= i < |subs|
      ensures MatchShell(subs[i], patterns, behavior, m) ==
              if behavior == Allow then Covered(subs[i], patterns, m) else Hit(subs[i], patterns, m)
    {
      SubcommandsAreFinal(command, subs[i], m.space);
      SingleDecided(subs[i], patterns, behavior, m);
    }
  }

  lemma SingleDecided(sub: string, patterns: seq<string>, behavior: Behavior, m: Matcher)
    ensures MatchParts([sub], patterns, behavior, m) ==
            if behavior == Allow then Covered(sub, patterns, m) else Hit(sub, patterns, m)
  {
    TestOne(sub, CoverTest(patterns, m));
    TestOne(sub, HitTest(patterns, m));
  }

  // ---- rule sets ----

  function Merge(a: RuleSet, b: RuleSet): RuleSet {
    RuleSet(a.allow + b.allow, a.deny + b.deny, a.ask + b.ask)
  }

  predicate InScope(rule: Rule, tool: string, origin: Option<Origin>) {
    rule.tool == tool && (origin.None? || rule.origin == origin.value)
  }

  function Scoped(rules: seq<Rule>, tool: string, origin: Option<Origin>): (r: seq<Rule>)
    ensures forall rule :: rule in r <==> rule in rules && InScope(rule, tool, origin)
  {
    if rules == [] then []
    else
      var n := |rules| - 1;
      Scoped(rules[..n], tool, origin) + (if InScope(rules[n], tool, origin) then [rules[n]] else [])
  }

  predicate HasWhole(rules: seq<Rule>) { exists i :: 0 <= i < |rules| && rules[i].content.None? }

  function Patterns(rules: seq<Rule>): (r: seq<string>)
    ensures forall p :: p in r <==> HasContent(rules, p)
  {
    if rules == [] then []
    else
      var n := |rules| - 1;
      Patterns(rules[..n]) + (if rules[n].content.Some? then [rules[n].content.value] else [])
  }

  /** Some rule has this content. */
  predicate HasContent(rules: seq<Rule>, p: string) { exists i :: 0 <= i < |rules| && rules[i].content == Some(p) }

  /** Does a rule of the list govern the call?  A rule for the whole tool always does. */
  predicate Matches(rules: seq<Rule>, tool: string, args: Arguments, behavior: Behavior,
    origin: Option<Origin>, m: Matcher)
  {
    var scoped := Scoped(rules, tool, origin);
    || HasWhole(scoped)
    || (if IsShell(tool) then MatchShell(args.command, Patterns(scoped), behavior, m)
        else args.candidate.Some? && CoversArgument(Patterns(scoped), args.candidate.value, m))
  }

  predicate CoversArgument(patterns: seq<string>, candidate: string, m: Matcher) {
    exists i :: 0 <= i < |patterns| && m.coversArgument(patterns[i], candidate)
  }

  /** Every rule of a is a rule of b. */
  predicate Within(a: seq<Rule>, b: seq<Rule>) { forall rule :: rule in a ==> rule in b }

  lemma CoveredWithin(sub: string, a: seq<string>, b: seq<string>, m: Matcher)
    requires forall p :: p in a ==> p in b
    ensures Covered(sub, a, m) ==> Covered(sub, b, m)
    ensures Hit(sub, a, m) ==> Hit(sub, b, m)
  {
    if Covered(sub, a, m) {
      var i :| 0 <= i < |a| && m.covers(a[i], Normalize(sub, m));
      assert a[i] in b;
    }
    if Hit(sub, a, m) {
      var i :| 0 <= i < |a| && HitBy(sub, a[i], m);
      assert a[i] in b;
    }
  }

  lemma TestsWithin(texts: seq<string>, a: string -> bool, b: string -> bool)
    requires forall x :: a(x) ==> b(x)
    ensures AnyOf(texts, a) ==> AnyOf(texts, b)
    ensures AllOf(texts, a) ==> AllOf(texts, b)
  {}

  lemma MatchShellWithin(command: string, a: seq<string>, b: seq<string>, behavior: Behavior, m: Matcher)
    requires forall p :: p in a ==> p in b
    requires MatchShell(command, a, behavior, m)
    ensures MatchShell(command, b, behavior, m)
  {
    forall x ensures CoverTest(a, m)(x) ==> CoverTest(b, m)(x) { CoveredWithin(x, a, b, m); }
    forall x ensures HitTest(a, m)(x) ==> HitTest(b, m)(x) { CoveredWithin(x, a, b, m); }
    TestsWithin(Split(command, m.space), CoverTest(a, m), CoverTest(b, m));
    TestsWithin(Split(command, m.space), HitTest(a, m), HitTest(b, m));
  }

  lemma PatternsWithin(a: seq<Rule>, b: seq<Rule>)
    requires Within(a, b)
    ensures forall p :: p in Patterns(a) ==> p in Patterns(b)
    ensures HasWhole(a) ==> HasWhole(b)
  {
    forall p | p in Patterns(a) ensures p in Patterns(b) {
      var i :| 0 <= i < |a| && a[i].content == Some(p);
      assert a[i] in b;
      assert HasContent(b, p);
    }
    if HasWhole(a) {
      var i :| 0 <= i < |a| && a[i].content.None?;
      assert a[i] in b;
    }
  }

  /** More rules govern more calls, for each behaviour; so do rules of any origin compared with
      the rules of one. */
  lemma MatchesMonotone(a: seq<Rule>, b: seq<Rule>, tool: string, args: Arguments, behavior: Behavior,
    from: Option<Origin>, to: Option<Origin>, m: Matcher)
    requires Within(a, b) && (to == from || to.None?) && Matches(a, tool, args, behavior, from, m)
    ensures Matches(b, tool, args, behavior, to, m)
  {
    var sa, sb := Scoped(a, tool, from), Scoped(b, tool, to);
    PatternsWithin(sa, sb);
    if !HasWhole(sa) {
      var pa, pb := Patterns(sa), Patterns(sb);
      if IsShell(tool) {
        MatchShellWithin(args.command, pa, pb, behavior, m);
      } else {
        var i :| 0 <= i < |pa| && m.coversArgument(pa[i], args.candidate.value);
        assert pa[i] in pb;
      }
    }
  }

  /** The patterns of c are those of a and those of b. */
  ghost predicate PatternUnion(a: seq<string>, b: seq<string>, c: seq<string>) {
    forall p :: p in c <==> p in a || p in b
  }

  lemma CoveredUnion(sub: string, a: seq<string>, b: seq<string>, c: seq<string>, m: Matcher)
    requires PatternUnion(a, b, c)
    ensures Covered(sub, c, m) <==> Covered(sub, a, m) || Covered(sub, b, m)
    ensures Hit(sub, c, m) <==> Hit(sub, a, m) || Hit(sub, b, m)
  {
    CoveredWithin(sub, a, c, m);
    CoveredWithin(sub, b, c, m);
    if Covered(sub, c, m) {
      var i :| 0 <= i < |c| && m.covers(c[i], Normalize(sub, m));
      assert c[i] in a || c[i] in b;
    }
    if Hit(sub, c, m) {
      var i :| 0 <= i < |c| && HitBy(sub, c[i], m);
      assert c[i] in a || c[i] in b;
    }
  }

  lemma RulesUnion(sa: seq<Rule>, sb: seq<Rule>, sc: seq<Rule>)
    requires forall rule :: rule in sc <==> rule in sa || rule in sb
    ensures HasWhole(sc) <==> HasWhole(sa) || HasWhole(sb)
    ensures PatternUnion(Patterns(sa), Patterns(sb), Patterns(sc))
  {
    PatternsWithin(sa, sc);
    PatternsWithin(sb, sc);
    if HasWhole(sc) {
      var i :| 0 <= i < |sc| && sc[i].content.None?;
      assert sc[i] in sc;
    }
    forall p | p in Patterns(sc) ensures p in Patterns(sa) || p in Patterns(sb) {
      var i :| 0 <= i < |sc| && sc[i].content == Some(p);
      assert sc[i] in sc;
      assert HasContent(sa, p) || HasContent(sb, p);
    }
  }

  lemma ScopedUnion(a: seq<Rule>, b: seq<Rule>, tool: string, origin: Option<Origin>)
    ensures var (sa, sb, sc) := (Scoped(a, tool, origin), Scoped(b, tool, origin), Scoped(a + b, tool, origin));
            && (HasWhole(sc) <==> HasWhole(sa) || HasWhole(sb))
            && PatternUnion(Patterns(sa), Patterns(sb), Patterns(sc))
  {
    var sa, sb, sc := Scoped(a, tool, origin), Scoped(b, tool, origin), Scoped(a + b, tool, origin);
    forall rule ensures rule in a + b <==> rule in a || rule in b {}
    RulesUnion(sa, sb, sc);
  }

  /** Over merged rule sets, deny and ask rules match exactly what either set matches. */
  lemma MergedDenyIsUnion(a: seq<Rule>, b: seq<Rule>, tool: string, args: Arguments, behavior: Behavior,
    origin: Option<Origin>, m: Matcher)
    requires behavior != Allow || !IsShell(tool)
    ensures Matches(a + b, tool, args, behavior, origin, m) <==>
            Matches(a, tool, args, behavior, origin, m) || Matches(b, tool, args, behavior, origin, m)
  {
    assert Within(a, a + b) && Within(b, a + b);
    if Matches(a, tool, args, behavior, origin, m) {
      MatchesMonotone(a, a + b, tool, args, behavior, origin, origin, m);
    }
    if Matches(b, tool, args, behavior, origin, m) {
      MatchesMonotone(b, a + b, tool, args, behavior, origin, origin, m);
    }
    if Matches(a + b, tool, args, behavior, origin, m) {
      ScopedUnion(a, b, tool, origin);
      var pa, pb := Patterns(Scoped(a, tool, origin)), Patterns(Scoped(b, tool, origin));
      var pc := Patterns(Scoped(a + b, tool, origin));
      if HasWhole(Scoped(a + b, tool, origin)) {
      } else if IsShell(tool) {
        var subs := Split(args.command, m.space);
        var i :| 0 <= i < |subs| && Hit(subs[i], pc, m);
        CoveredUnion(subs[i], pa, pb, pc, m);
      } else {
        var i :| 0 <= i < |pc| && m.coversArgument(pc[i], args.candidate.value);
        assert pc[i] in pa || pc[i] in pb;
      }
    }
  }

  /** Over merged rule sets a command is allowed exactly when each of its sub-commands is allowed
      by one set or by the other. */
  lemma MergedAllowBySubcommands(a: seq<Rule>, b: seq<Rule>, tool: string, args: Arguments,
    origin: Option<Origin>, m: Matcher)
    requires IsShell(tool) && !HasWhole(Scoped(a + b, tool, origin)) && !m.space('\'') && !m.space('"')
    ensures var subs := Split(args.command, m.space);
            Matches(a + b, tool, args, Allow, origin, m) <==>
              subs != [] && forall i :: 0 <= i < |subs| ==>
                || Matches(a, tool, args.(command := subs[i]), Allow, origin, m)
                || Matches(b, tool, args.(command := subs[i]), Allow, origin, m)
  {
    ScopedUnion(a, b, tool, origin);
    var pa, pb := Patterns(Scoped(a, tool, origin)), Patterns(Scoped(b, tool, origin));
    var pc := Patterns(Scoped(a + b, tool, origin));
    var subs := Split(args.command, m.space);
    forall i | 0 <= i < |subs|
      ensures Matches(a, tool, args.(command := subs[i]), Allow, origin, m) == Covered(subs[i], pa, m)
      ensures Matches(b, tool, args.(command := subs[i]), Allow, origin, m) == Covered(subs[i], pb, m)
      ensures Covered(subs[i], pc, m) <==> Covered(subs[i], pa, m) || Covered(subs[i], pb, m)
    {
      SubcommandsAreFinal(args.command, subs[i], m.space);
      SingleDecided(subs[i], pa, Allow, m);
      SingleDecided(subs[i], pb, Allow, m);
      CoveredUnion(subs[i], pa, pb, pc, m);
    }
  }

  /** One set allows a command when it allows each of its sub-commands. */
  lemma AllowBySubcommands(a: seq<Rule>, tool: string, args: Arguments, origin: Option<Origin>, m: Matcher)
    requires IsShell(tool) && !HasWhole(Scoped(a, tool, origin)) && !m.space('\'') && !m.space('"')
    ensures var subs := Split(args.command, m.space);
            Matches(a, tool, args, Allow, origin, m) <==>
              subs != [] && forall i :: 0 <= i < |subs| ==>
                  Matches(a, tool, args.(command := subs[i]), Allow, origin, m)
  {
    var patterns, subs := Patterns(Scoped(a, tool, origin)), Split(args.command, m.space);
    DecidedBySubcommands(args.command, patterns, Allow, m);
    assert forall i :: 0 <= i < |subs| ==>
      (Matches(a, tool, args.(command := subs[i]), Allow, origin, m) <==> MatchShell(subs[i], patterns, Allow, m));
  }

  /** Merged sets allow a command that neither allows if and only if no rule for the whole tool applies,
      every sub-command is allowed by one set or the other, and each set fails on some sub-command. */
  lemma MergedAllowDiffersIff(a: seq<Rule>, b: seq<Rule>, tool: string, args: Arguments,
    origin: Option<Origin>, m: Matcher)
    requires IsShell(tool) && !m.space('\'') && !m.space('"')
    ensures var subs := Split(args.command, m.space);
            (&& Matches(a + b, tool, args, Allow, origin, m)
             && !Matches(a, tool, args, Allow, origin, m) && !Matches(b, tool, args, Allow, origin, m)) <==>
            (&& !HasWhole(Scoped(a + b, tool, origin))
             && (forall i :: 0 <= i < |subs| ==>
                   || Matches(a, tool, args.(command := subs[i]), Allow, origin, m)
                   || Matches(b, tool, args.(command := subs[i]), Allow, origin, m))
             && (exists i :: 0 <= i < |subs| && !Matches(a, tool, args.(command := subs[i]), Allow, origin, m))
             && (exists i :: 0 <= i < |subs| && !Matches(b, tool, args.(command := subs[i]), Allow, origin, m)))
  {
    ScopedUnion(a, b, tool, origin);
    if !HasWhole(Scoped(a + b, tool, origin)) {
      MergedAllowBySubcommands(a, b, tool, args, origin, m);
      AllowBySubcommands(a, tool, args, origin, m);
      AllowBySubcommands(b, tool, args, origin, m);
    }
  }

  /** So merging allows more than either set: one set for each side of a compound is enough. */
  lemma MergedAllowIsNotUnion(a: seq<Rule>, b: seq<Rule>, tool: string, l: string, op: string, r: string,
    origin: Option<Origin>, m: Matcher)
    requires IsShell(tool) && Separates(l, op, r)
    requires Matches(a, tool, Arguments(l, None), Allow, origin, m) &&
        !Matches(a, tool, Arguments(r, None), Allow, origin, m)
    requires Matches(b, tool, Arguments(r, None), Allow, origin, m) &&
        !Matches(b, tool, Arguments(l, None), Allow, origin, m)
    ensures Matches(a + b, tool, Arguments(l + op + r, None), Allow, origin, m)
    ensures !Matches(a, tool, Arguments(l + op + r, None), Allow, origin, m)
    ensures !Matches(b, tool, Arguments(l + op + r, None), Allow, origin, m)
  {
    assert Within(a, a + b) && Within(b, a + b);
    MatchesMonotone(a, a + b, tool, Arguments(l, None), Allow, origin, origin, m);
    MatchesMonotone(b, a + b, tool, Arguments(r, None), Allow, origin, origin, m);
    CompoundAllowed(l, op, r, Patterns(Scoped(a, tool, origin)), m);
    CompoundAllowed(l, op, r, Patterns(Scoped(b, tool, origin)), m);
    CompoundAllowed(l, op, r, Patterns(Scoped(a + b, tool, origin)), m);
  }

  // ---- an instance ----

  /** Blanks separate nothing, a command is one word, and a pattern covers only itself. */
  const LITERAL: Matcher := Matcher(c => c == ' ', s => [s], s => false, (p, c) => p == c, (p, c) => p == c)

  /** A command of one character that is not blank, a quote or an operator. */
  predicate Simple(s: string, m: Matcher) {
    && |s| == 1 && !m.space(s[0]) && s[0] !in "'\"&|;\n="
    && m.words(s) == [s]
  }

  lemma SimpleSplits(s: string, m: Matcher)
    requires Simple(s, m)
    ensures Split(s, m.space) == [s] && Trim(s, m.space) == s
  {
    assert s[1..] == [] && Operator(s) == 0;
    assert Atomic(s, None);
    AtomicSplits(s, m.space);
  }

  lemma SimpleIsClosed(s: string, m: Matcher)
    requires Simple(s, m)
    ensures QuotedAfter(None, s) == None
  {
    assert s[1..] == [];
  }

  lemma SimpleNormal(s: string, m: Matcher)
    requires Simple(s, m)
    ensures Normalize(s, m) == s
  {
    SimpleSplits(s, m);
    ShellStrip.NotAnAssignment(s);
    var w := ShellStrip.Words(m.numeric);
    assert ShellStrip.StripEnv([s]) == [s];
    assert ShellStrip.Taken([s], w) == 0;
    assert Join([s]) == s;
  }

  function Only(p: string): seq<Rule> { [Rule("bash", Some(p), Project)] }

  lemma OnlyPattern(p: string)
    ensures Scoped(Only(p), "bash", None) == Only(p) && Patterns(Only(p)) == [p] && !HasWhole(Only(p))
  {
    assert Only(p)[..0] == [];
    assert Scoped([], "bash", None) == [] && Patterns([]) == [];
  }

  lemma CoveredByOne(s: string, p: string, m: Matcher)
    requires Simple(s, m)
    ensures Covered(s, [p], m) <==> m.covers(p, s)
  {
    SimpleNormal(s, m);
    assert [p][0] == p;
  }

  lemma OnlyAllows(p: string, s: string, m: Matcher)
    requires Simple(s, m)
    ensures Matches(Only(p), "bash", Arguments(s, None), Allow, None, m) <==> m.covers(p, s)
  {
    OnlyPattern(p);
    SimpleSplits(s, m);
    SingleDecided(s, [p], Allow, m);
    CoveredByOne(s, p, m);
  }

  /** One rule for each side of a compound: neither set allows it, and together they do. */
  lemma TwoRulesTogether(l: string, r: string, m: Matcher)
    requires Simple(l, m) && Simple(r, m) && m.covers(l, l) && m.covers(r, r) && !m.covers(l, r) && !m.covers(r, l)
    ensures Matches(Only(l) + Only(r), "bash", Arguments(l + ";" + r, None), Allow, None, m)
    ensures !Matches(Only(l), "bash", Arguments(l + ";" + r, None), Allow, None, m)
    ensures !Matches(Only(r), "bash", Arguments(l + ";" + r, None), Allow, None, m)
  {
    SimpleIsClosed(l, m);
    OnlyAllows(l, l, m);
    OnlyAllows(l, r, m);
    OnlyAllows(r, l, m);
    OnlyAllows(r, r, m);
    MergedAllowIsNotUnion(Only(l), Only(r), "bash", l, ";", r, None, m);
  }

  /** So for the rules `a` and `b` and the command `a;b`. */
  lemma AllowedTogether()
    ensures Matches(Only("a") + Only("b"), "bash", Arguments("a" + ";" + "b", None), Allow, None, LITERAL)
    ensures !Matches(Only("a"), "bash", Arguments("a" + ";" + "b", None), Allow, None, LITERAL)
    ensures !Matches(Only("b"), "bash", Arguments("a" + ";" + "b", None), Allow, None, LITERAL)
  {
    TwoRulesTogether("a", "b", LITERAL);
  }
}
