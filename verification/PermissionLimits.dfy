/**
 * What the rules, the modes and the envelope of a sub-agent come to, said without the pipeline: when
 * a list of rules governs a call, and what no tool, grant or rule can get around.
 */
module PermissionLimits {
  import opened Wrappers
  import opened ShellSplit
  import Rules = ShellRules
  import opened Permissions

  // ---- when a list of rules governs a call ----

  /** A rule of the list about this tool, from the origin that is asked for if any, has this content. */
  ghost predicate Says(rules: seq<Rules.Rule>, tool: string, origin: Option<Rules.Origin>, content: Option<string>) {
    exists rule :: rule in rules && rule.tool == tool && (origin == None || origin == Some(rule.origin))
                   && rule.content == content
  }

  /** A command line in which some sub-command is covered, as written or normalised. */
  ghost predicate SomePartShown(rules: seq<Rules.Rule>, tool: string, origin: Option<Rules.Origin>, command: string,
    m: Rules.Matcher)
  {
    exists sub, p, text :: && sub in Split(command, m.space) && Says(rules, tool, origin, Some(p))
                           && Rules.Shown(text, sub, m) && m.covers(p, text)
  }

  /** A command line with sub-commands, each of which is covered once normalised. */
  ghost predicate AllPartsCovered(rules: seq<Rules.Rule>, tool: string, origin: Option<Rules.Origin>,
    command: string, m: Rules.Matcher)
  {
    && Split(command, m.space) != []
    && forall sub :: sub in Split(command, m.space) ==>
         exists p :: Says(rules, tool, origin, Some(p)) && m.covers(p, Rules.Normalize(sub, m))
  }

  lemma WholeIff(rules: seq<Rules.Rule>, tool: string, origin: Option<Rules.Origin>)
    ensures Rules.HasWhole(Rules.Scoped(rules, tool, origin)) <==> Says(rules, tool, origin, None)
  {
    var scoped := Rules.Scoped(rules, tool, origin);
    if i :| 0 <= i < |scoped| && scoped[i].content.None? { assert scoped[i] in scoped; }
    if rule :| rule in rules && rule.tool == tool && (origin == None || origin == Some(rule.origin))
               && rule.content == None {
      assert rule in scoped;
    }
  }

  lemma PatternIff(rules: seq<Rules.Rule>, tool: string, origin: Option<Rules.Origin>, p: string)
    ensures p in Rules.Patterns(Rules.Scoped(rules, tool, origin)) <==> Says(rules, tool, origin, Some(p))
  {
    var scoped := Rules.Scoped(rules, tool, origin);
    if i :| 0 <= i < |scoped| && scoped[i].content == Some(p) { assert scoped[i] in scoped; }
    if rule :| rule in rules && rule.tool == tool && (origin == None || origin == Some(rule.origin))
               && rule.content == Some(p) {
      assert rule in scoped;
      assert Rules.HasContent(scoped, p);
    }
  }

  lemma ShownIff(rules: seq<Rules.Rule>, tool: string, origin: Option<Rules.Origin>, command: string,
    behavior: Rules.Behavior, m: Rules.Matcher)
    requires behavior != Rules.Allow
    ensures Rules.MatchShell(command, Rules.Patterns(Rules.Scoped(rules, tool, origin)), behavior, m) <==>
            SomePartShown(rules, tool, origin, command, m)
  {
    var patterns := Rules.Patterns(Rules.Scoped(rules, tool, origin));
    forall p ensures p in patterns <==> Says(rules, tool, origin, Some(p)) { PatternIff(rules, tool, origin, p); }
    Rules.DenyMatchIff(command, patterns, behavior, m);
  }

  lemma CoveredIff(rules: seq<Rules.Rule>, tool: string, origin: Option<Rules.Origin>, command: string,
    m: Rules.Matcher)
    ensures Rules.MatchShell(command, Rules.Patterns(Rules.Scoped(rules, tool, origin)), Rules.Allow, m) <==>
            AllPartsCovered(rules, tool, origin, command, m)
  {
    var patterns := Rules.Patterns(Rules.Scoped(rules, tool, origin));
    forall p ensures p in patterns <==> Says(rules, tool, origin, Some(p)) { PatternIff(rules, tool, origin, p); }
    Rules.AllowMatchIff(command, patterns, m);
  }

  lemma ArgumentIff(rules: seq<Rules.Rule>, tool: string, origin: Option<Rules.Origin>, candidate: string,
    m: Rules.Matcher)
    ensures Rules.CoversArgument(Rules.Patterns(Rules.Scoped(rules, tool, origin)), candidate, m) <==>
            exists p :: Says(rules, tool, origin, Some(p)) && m.coversArgument(p, candidate)
  {
    var patterns := Rules.Patterns(Rules.Scoped(rules, tool, origin));
    forall p ensures p in patterns <==> Says(rules, tool, origin, Some(p)) { PatternIff(rules, tool, origin, p); }
    if p :| Says(rules, tool, origin, Some(p)) && m.coversArgument(p, candidate) {
      var i :| 0 <= i < |patterns| && patterns[i] == p;
    }
  }

  /** A list governs a call if and only if it has a rule for the whole tool; or the tool takes a command line, of
      which a rule that denies or asks covers some part and rules that allow cover every part; or the tool takes
      another argument, and a rule covers that. */
  lemma MatchesIff(rules: seq<Rules.Rule>, tool: string, args: Rules.Arguments, behavior: Rules.Behavior,
    origin: Option<Rules.Origin>, m: Rules.Matcher)
    ensures Rules.Matches(rules, tool, args, behavior, origin, m) <==>
            || Says(rules, tool, origin, None)
            || (if tool in {"bash", "powershell"} then
                  if behavior == Rules.Allow then AllPartsCovered(rules, tool, origin, args.command, m)
                  else SomePartShown(rules, tool, origin, args.command, m)
                else
                  && args.candidate.Some?
                  && exists p :: Says(rules, tool, origin, Some(p)) && m.coversArgument(p, args.candidate.value))
  {
    WholeIff(rules, tool, origin);
    if !Rules.IsShell(tool) {
      if args.candidate.Some? { ArgumentIff(rules, tool, origin, args.candidate.value, m); }
    } else if behavior == Rules.Allow {
      CoveredIff(rules, tool, origin, args.command, m);
    } else {
      ShownIff(rules, tool, origin, args.command, behavior, m);
    }
  }

  // ---- the sandbox ----

  /** In a mode that runs without a user, outside the sandbox, a call is refused whatever it is, unless the
      administrator does not demand the sandbox and the opt-out is given. */
  lemma UnattendedNeedsSandbox(tool: Tool, call: Call, ctx: Context, st: Settings, w: World)
    requires st.mode in {Auto, DontAsk, Bypass} && !ctx.sandboxed
    requires st.managed.needsSandbox || !st.unsandboxedAllowed
    ensures Evaluate(tool, call, ctx, st, w).verdict == Deny
  {}

  function WithSandbox(st: Settings, needed: bool, allowed: bool): Settings {
    st.(managed := st.managed.(needsSandbox := needed), unsandboxedAllowed := allowed)
  }

  lemma PreflightIgnoresSandbox(tool: Tool, call: Call, ctx: Context, st: Settings, w: World, needed: bool,
    allowed: bool)
    requires st.mode in {Default, AcceptEdits, Plan}
    ensures Preflight(tool, call, ctx, WithSandbox(st, needed, allowed), w) == Preflight(tool, call, ctx, st, w)
  {}

  lemma GrantIgnoresSandbox(tool: Tool, call: Call, given: Decision, st: Settings, w: World, needed: bool,
    allowed: bool)
    ensures Grant(tool, call, given, WithSandbox(st, needed, allowed), w) == Grant(tool, call, given, st, w)
  {}

  /** In the other modes both settings make no difference to any decision. */
  lemma AttendedIgnoresSandbox(tool: Tool, call: Call, ctx: Context, st: Settings, w: World, needed: bool,
    allowed: bool)
    requires st.mode in {Default, AcceptEdits, Plan}
    ensures Evaluate(tool, call, ctx, WithSandbox(st, needed, allowed), w) == Evaluate(tool, call, ctx, st, w)
  {
    PreflightIgnoresSandbox(tool, call, ctx, st, w, needed, allowed);
    if w.check(call, ctx).Gave? {
      var given := w.check(call, ctx).decision;
      GrantIgnoresSandbox(tool, Effective(call, given), given, st, w, needed, allowed);
      if given.updated.Some? {
        var updated := given.updated.value;
        PreflightIgnoresSandbox(tool, updated, BuildContext(updated, st, w), st, w, needed, allowed);
      }
    }
  }

  // ---- the envelope of a sub-agent ----

  /** Envelopes nest: each mode may pass itself on, no two modes may pass each other on, and what a child may pass
      on its parent may pass on. */
  lemma EnvelopeIsOrder(a: Mode, b: Mode, c: Mode)
    ensures a in ChildModes(a)
    ensures a in ChildModes(b) && b in ChildModes(a) ==> a == b
    ensures b in ChildModes(a) && c in ChildModes(b) ==> c in ChildModes(a)
  {}

  /** No chain of sub-agents gets beyond the mode of the first; only bypass leads to bypass, only auto to auto, and
      planning leads nowhere else. */
  lemma {:induction false} ChainStaysInside(chain: seq<Mode>)
    requires chain != [] && forall i :: 0 < i < |chain| ==> chain[i] in ChildModes(chain[i - 1])
    ensures var first, last := chain[0], chain[|chain| - 1];
            && last in ChildModes(first)
            && (last in {Bypass, Auto, Plan} ==> first == last)
            && (first == Plan ==> last == Plan) && (first == Default ==> last == Default)
  {
    if |chain| > 1 {
      var init := chain[..|chain| - 1];
      assert forall i :: 0 <= i < |init| ==> init[i] == chain[i];
      ChainStaysInside(init);
      EnvelopeIsOrder(chain[0], init[|init| - 1], chain[|chain| - 1]);
    }
  }

  /** A sub-agent in a mode outside its parent's envelope is refused every call. */
  lemma OutsideEnvelopeRefused(tool: Tool, call: Call, ctx: Context, st: Settings, w: World)
    requires ctx.isSubagent && ctx.parentMode.Some? && st.mode !in ChildModes(ctx.parentMode.value)
    ensures Evaluate(tool, call, ctx, st, w).verdict == Deny
  {}

  // ---- what the modes do ----

  /** While planning, only reading and the planning tools themselves can be allowed. */
  lemma PlanOnlyReads(tool: Tool, call: Call, ctx: Context, st: Settings, w: World)
    requires st.mode == Plan && tool.risk != Read
    requires tool.name !in {"write_plan", "exit_plan", "update_todos", "task_create", "task_update", "team_create",
                            "teammate_spawn", "team_message_send", "dispatch_agent", "skill"}
    ensures Evaluate(tool, call, ctx, st, w).verdict == Deny
  {}

  /** No mode, grant or tool gets around a rule that asks: the user is asked, in bypass mode and past the automatic
      classifier too; dontask mode refuses. */
  lemma AskRuleAlwaysAsks(tool: Tool, call: Call, ctx: Context, st: Settings, w: World)
    requires AskMatches(st, tool.name, call, w) && Passed(tool, call, ctx, WithAsk(st, []), w)
    ensures Evaluate(tool, call, ctx, st, w) ==
            Decision(if st.mode == DontAsk then Deny else Ask, None, false, false)
  {}

  /** A call on which the tool has no opinion and for which there is no ground: refused while planning and in dontask
      mode; put to the automatic classifier in auto mode unless the tool needs the user; asked otherwise. */
  lemma UnsettledCall(tool: Tool, call: Call, ctx: Context, st: Settings, w: World)
    requires Passed(tool, call, ctx, st, w)
    requires w.check(call, ctx) == Gave(Decision(Passthrough, None, false, false))
    requires !Ground(tool, call, Passthrough, st, w)
    ensures var d := Evaluate(tool, call, ctx, st, w);
            && (d.verdict == Deny <==> st.mode == DontAsk || (st.mode == Plan && !tool.needsUser))
            && (d.verdict != Deny ==> d.verdict == Ask)
            && (d.automated <==> st.mode == Auto && !tool.needsUser)
  {
    PreflightNoneIff(tool, call, ctx, st, w);
  }

  /** No decision of the world around the pipeline asks for the classifier by itself. */
  ghost predicate Plain(w: World) {
    && (forall c, x :: w.paths(c, x).Some? ==> !w.paths(c, x).value.automated)
    && (forall c, x :: w.web(c, x).Some? ==> !w.web(c, x).value.automated)
    && (forall c, x :: w.check(c, x).Gave? ==> !w.check(c, x).decision.automated)
  }

  lemma PreflightPlain(tool: Tool, call: Call, ctx: Context, st: Settings, w: World)
    requires Plain(w)
    ensures var d := Preflight(tool, call, ctx, st, w); d.Some? ==> !d.value.automated
  {}

  predicate MayAutomate(d: Decision, tool: Tool, st: Settings) {
    d.automated ==> d.verdict == Ask && st.mode == Auto && !tool.needsUser
  }

  lemma GrantPlain(tool: Tool, call: Call, given: Decision, st: Settings, w: World)
    requires !given.automated
    ensures MayAutomate(Grant(tool, call, given, st, w), tool, st)
  {}

  lemma FinalModePlain(d: Decision, tool: Tool, st: Settings)
    requires !d.automated
    ensures MayAutomate(FinalMode(d, tool, st), tool, st)
  {}

  /** Only questions are put to the automatic classifier, only in auto mode, and never for a tool that needs the
      user. */
  lemma AutomatedOnlyInAuto(tool: Tool, call: Call, ctx: Context, st: Settings, w: World)
    requires Plain(w)
    ensures MayAutomate(Evaluate(tool, call, ctx, st, w), tool, st)
  {
    PreflightPlain(tool, call, ctx, st, w);
    var first := Preflight(tool, call, ctx, st, w);
    if first.Some? {
      FinalModePlain(first.value, tool, st);
    } else if w.check(call, ctx).Gave? {
      var given := w.check(call, ctx).decision;
      GrantPlain(tool, Effective(call, given), given, st, w);
      if given.updated.Some? {
        var again := BuildContext(given.updated.value, st, w);
        PreflightPlain(tool, given.updated.value, again, st, w);
        var second := Preflight(tool, given.updated.value, again, st, w);
        if second.Some? { FinalModePlain(second.value, tool, st); }
      }
    }
  }
}
