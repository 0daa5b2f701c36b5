/**
 * The permission decision for one tool call: a fixed order of checks on the arguments, then the
 * tool's own verdict, then a second round of checks if the tool rewrote the arguments, then
 * grants, and the mode last.
 */
module Permissions {
  import opened Wrappers
  import opened ShellSplit
  import Rules = ShellRules

  datatype Mode = Default | AcceptEdits | Plan | Auto | DontAsk | Bypass
  datatype Risk = Read | Write | Dangerous
  datatype Verdict = Allow | Deny | Ask | Passthrough

  /** The arguments of a call: what the rules look at, and everything else. */
  datatype Call = Call(offer: Rules.Arguments, other: string)

  datatype Tool = Tool(name: string, risk: Risk, needsUser: bool)

  /** approvable: an automatic classifier may answer the question; automated: it is asked to. */
  datatype Decision = Decision(verdict: Verdict, updated: Option<Call>, approvable: bool, automated: bool)

  datatype Managed = Managed(forbidden: set<Mode>, needsSandbox: bool, managedRulesOnly: bool)

  datatype Context = Context(sandboxed: bool, isSubagent: bool, parentMode: Option<Mode>)

  /** The state of the policy that a decision reads. */
  datatype Settings = Settings(mode: Mode, rules: Rules.RuleSet, managed: Managed, sessionTools: set<string>,
    sessionCommands: set<string>, unsandboxedAllowed: bool, isSubagent: bool, parentMode: Option<Mode>)

  datatype Answer = Failed | Gave(decision: Decision)

  /** Code outside the pipeline: schema validation, path and address checks, the sandbox and the
      tool's own verdict. */
  datatype World = World(
    schemaHolds: Call -> bool,
    paths: (Call, Context) -> Option<Decision>,
    web: (Call, Context) -> Option<Decision>,
    sandboxed: Call -> bool,
    autoAllowed: Call -> bool,
    check: (Call, Context) -> Answer,
    matcher: Rules.Matcher)

  function Denied(): Decision { Decision(Deny, None, false, false) }
  function AllowedWith(updated: Option<Call>): Decision { Decision(Allow, updated, false, false) }

  /** The path and address checks refuse or ask; they never allow. */
  ghost predicate Sound(w: World) {
    && (forall c, x :: w.paths(c, x).Some? ==> w.paths(c, x).value.verdict in {Deny, Ask})
    && (forall c, x :: w.web(c, x).Some? ==> w.web(c, x).value.verdict in {Deny, Ask})
  }

  predicate Unattended(mode: Mode) { mode == Auto || mode == DontAsk || mode == Bypass }

  /** The modes that a sub-agent may have under its parent's mode. */
  function ChildModes(parent: Mode): set<Mode> {
    match parent
    case Default => {Default}
    case AcceptEdits => {Default, AcceptEdits}
    case Plan => {Plan}
    case Auto => {Default, AcceptEdits, Auto}
    case DontAsk => {Default, DontAsk}
    case Bypass => {Default, AcceptEdits, DontAsk, Bypass}
  }

  const PLAN_TOOLS: set<string> :=
    {"write_plan", "exit_plan", "update_todos", "task_create", "task_update", "team_create",
     "teammate_spawn", "team_message_send", "dispatch_agent", "skill"}

  predicate DenyMatches(st: Settings, name: string, call: Call, origin: Option<Rules.Origin>, w: World) {
    Rules.Matches(st.rules.deny, name, call.offer, Rules.Deny, origin, w.matcher)
  }

  predicate AskMatches(st: Settings, name: string, call: Call, w: World) {
    Rules.Matches(st.rules.ask, name, call.offer, Rules.Ask, None, w.matcher)
  }

  predicate AllowMatches(st: Settings, name: string, call: Call, w: World) {
    Rules.Matches(st.rules.allow, name, call.offer, Rules.Allow,
      if st.managed.managedRulesOnly then Some(Rules.Managed) else None, w.matcher)
  }

  /** The checks that run before the tool is asked, in order; None when all of them pass. */
  function Preflight(tool: Tool, call: Call, ctx: Context, st: Settings, w: World): Option<Decision> {
    if !w.schemaHolds(call) then Some(Denied())
    else if st.mode in st.managed.forbidden then Some(Denied())
    else if DenyMatches(st, tool.name, call, Some(Rules.Managed), w) then Some(Denied())
    else if DenyMatches(st, tool.name, call, None, w) then Some(Denied())
    else if Unattended(st.mode) && !ctx.sandboxed && (st.managed.needsSandbox || !st.unsandboxedAllowed)
    then Some(Denied())
    else if ctx.isSubagent && ctx.parentMode.Some? && st.mode !in ChildModes(ctx.parentMode.value) then Some(Denied())
    else if st.mode == Plan && tool.risk != Read && tool.name !in PLAN_TOOLS then Some(Denied())
    else if w.paths(call, ctx).Some? then w.paths(call, ctx)
    else if tool.name == "web_fetch" && w.web(call, ctx).Some? then w.web(call, ctx)
    else if AskMatches(st, tool.name, call, w) then Some(Decision(Ask, None, false, false))
    else None
  }

  function FinalMode(d: Decision, tool: Tool, st: Settings): Decision {
    if d.verdict != Ask then d
    else if st.mode == DontAsk then Decision(Deny, d.updated, false, false)
    else if st.mode == Auto && d.approvable && !tool.needsUser then Decision(Ask, d.updated, true, true)
    else d
  }

  function RiskFallback(tool: Tool, updated: Option<Call>, st: Settings): Decision {
    if tool.risk == Read then AllowedWith(updated)
    else if st.mode == Plan || st.mode == DontAsk then Decision(Deny, updated, false, false)
    else Decision(Ask, updated, st.mode == Auto, false)
  }

  /** The normalised sub-commands of a command line that are not blank. */
  function MarksBy(subs: seq<string>, normal: string -> string): set<string> {
    set sub | sub in subs && normal(sub) != [] :: normal(sub)
  }

  function NormalBy(m: Rules.Matcher): string -> string { sub => Rules.Normalize(sub, m) }

  function Marks(subs: seq<string>, m: Rules.Matcher): set<string> { MarksBy(subs, NormalBy(m)) }

  function Fingerprints(command: string, m: Rules.Matcher): set<string> { Marks(Split(command, m.space), m) }

  lemma MarksByNext(subs: seq<string>, i: nat, normal: string -> string)
    requires i < |subs|
    ensures var n := normal(subs[i]);
            MarksBy(subs[..i + 1], normal) == MarksBy(subs[..i], normal) + (if n != [] then {n} else {})
  {
    assert subs[..i + 1] == subs[..i] + [subs[i]];
  }

  lemma MarksNext(subs: seq<string>, i: nat, m: Rules.Matcher)
    requires i < |subs|
    ensures var n := Rules.Normalize(subs[i], m);
            Marks(subs[..i + 1], m) == Marks(subs[..i], m) + (if n != [] then {n} else {})
  {
    MarksByNext(subs, i, NormalBy(m));
  }

  predicate Remembered(marks: set<string>, known: set<string>) { marks != {} && marks <= known }

  predicate SessionAllowed(st: Settings, name: string, call: Call, w: World) {
    && !st.managed.managedRulesOnly
    && if Rules.IsShell(name) then
         Remembered(Fingerprints(call.offer.command, w.matcher), st.sessionCommands)
       else name in st.sessionTools
  }

  function BuildContext(call: Call, st: Settings, w: World): Context {
    Context(w.sandboxed(call), st.isSubagent, st.parentMode)
  }

  /** The decision once the arguments, original or rewritten, passed every check. */
  function Grant(tool: Tool, call: Call, given: Decision, st: Settings, w: World): Decision {
    if given.verdict == Deny then given
    else if given.verdict == Ask then FinalMode(given, tool, st)
    else if tool.needsUser then FinalMode(Decision(Ask, given.updated, false, false), tool, st)
    else if given.verdict == Passthrough && (w.autoAllowed(call) || st.mode == Bypass) then AllowedWith(given.updated)
    else if SessionAllowed(st, tool.name, call, w) || AllowMatches(st, tool.name, call, w)
    then AllowedWith(given.updated)
    else if given.verdict == Passthrough then FinalMode(RiskFallback(tool, given.updated, st), tool, st)
    else given
  }

  function Evaluate(tool: Tool, call: Call, ctx: Context, st: Settings, w: World): Decision {
    var first := Preflight(tool, call, ctx, st, w);
    if first.Some? then FinalMode(first.value, tool, st)
    else match w.check(call, ctx)
      case Failed => Denied()
      case Gave(given) =>
        match given.updated
        case None => Grant(tool, call, given, st, w)
        case Some(updated) =>
          var second := Preflight(tool, updated, BuildContext(updated, st, w), st, w);
          if second.Some? then FinalMode(second.value, tool, st) else Grant(tool, updated, given, st, w)
  }

  // ---- what an allowed call went through ----

  /** Everything that a passed preflight says. */
  ghost predicate Passed(tool: Tool, call: Call, ctx: Context, st: Settings, w: World) {
    && w.schemaHolds(call)
    && st.mode !in st.managed.forbidden
    && !DenyMatches(st, tool.name, call, None, w)
    && !DenyMatches(st, tool.name, call, Some(Rules.Managed), w)
    && !AskMatches(st, tool.name, call, w)
    && (Unattended(st.mode) && !ctx.sandboxed ==> !st.managed.needsSandbox && st.unsandboxedAllowed)
    && (ctx.isSubagent && ctx.parentMode.Some? ==> st.mode in ChildModes(ctx.parentMode.value))
    && (st.mode == Plan ==> tool.risk == Read || tool.name in PLAN_TOOLS)
    && w.paths(call, ctx).None?
    && (tool.name == "web_fetch" ==> w.web(call, ctx).None?)
  }

  lemma PreflightNoneIff(tool: Tool, call: Call, ctx: Context, st: Settings, w: World)
    ensures Preflight(tool, call, ctx, st, w).None? <==> Passed(tool, call, ctx, st, w)
  {}

  /** The managed deny check only gives its result a name: the check of all deny rules covers it. */
  lemma ManagedDenyCovered(tool: Tool, call: Call, st: Settings, w: World)
    requires DenyMatches(st, tool.name, call, Some(Rules.Managed), w)
    ensures DenyMatches(st, tool.name, call, None, w)
  {
    Rules.MatchesMonotone(st.rules.deny, st.rules.deny, tool.name, call.offer, Rules.Deny,
      Some(Rules.Managed), None, w.matcher);
  }

  /** A positive ground for allowing: the tool itself, the sandbox, bypass mode, a grant or a
      rule, or a tool that only reads. */
  predicate Ground(tool: Tool, call: Call, verdict: Verdict, st: Settings, w: World) {
    || verdict == Allow
    || SessionAllowed(st, tool.name, call, w)
    || AllowMatches(st, tool.name, call, w)
    || (verdict == Passthrough && (w.autoAllowed(call) || st.mode == Bypass || tool.risk == Read))
  }

  /** The arguments that the call runs with. */
  function Effective(call: Call, given: Decision): Call {
    if given.updated.Some? then given.updated.value else call
  }

  /** A call is allowed if and only if its original arguments and any rewritten ones passed every
      check, the tool neither refuses nor asks nor needs the user, and there is a ground. */
  lemma AllowIff(tool: Tool, call: Call, ctx: Context, st: Settings, w: World)
    requires Sound(w)
    ensures Evaluate(tool, call, ctx, st, w).verdict == Allow <==>
            && Passed(tool, call, ctx, st, w)
            && w.check(call, ctx).Gave?
            && var given := w.check(call, ctx).decision;
               && (given.updated.Some? ==>
                    Passed(tool, given.updated.value, BuildContext(given.updated.value, st, w), st, w))
               && given.verdict in {Allow, Passthrough} && !tool.needsUser
               && Ground(tool, Effective(call, given), given.verdict, st, w)
  {
    PreflightNoneIff(tool, call, ctx, st, w);
    PreflightSound(tool, call, ctx, st, w);
    if w.check(call, ctx).Gave? {
      var given := w.check(call, ctx).decision;
      GrantAllowIff(tool, Effective(call, given), given, st, w);
      if given.updated.Some? {
        var updated := given.updated.value;
        PreflightNoneIff(tool, updated, BuildContext(updated, st, w), st, w);
        PreflightSound(tool, updated, BuildContext(updated, st, w), st, w);
      }
    }
  }

  lemma PreflightSound(tool: Tool, call: Call, ctx: Context, st: Settings, w: World)
    requires Sound(w)
    ensures var d := Preflight(tool, call, ctx, st, w); d.Some? ==> d.value.verdict in {Deny, Ask}
  {}

  lemma GrantAllowIff(tool: Tool, call: Call, given: Decision, st: Settings, w: World)
    ensures Grant(tool, call, given, st, w).verdict == Allow <==>
            given.verdict in {Allow, Passthrough} && !tool.needsUser && Ground(tool, call, given.verdict, st, w)
  {}

  /** No rule that denies or asks matches what an allowed call was made with or runs with. */
  lemma AllowMeansNoRuleObjects(tool: Tool, call: Call, ctx: Context, st: Settings, w: World)
    requires Sound(w) && Evaluate(tool, call, ctx, st, w).verdict == Allow
    ensures w.check(call, ctx).Gave?
    ensures forall c :: c in {call, Effective(call, w.check(call, ctx).decision)} ==>
              !DenyMatches(st, tool.name, c, None, w) && !AskMatches(st, tool.name, c, w)
  {
    AllowIff(tool, call, ctx, st, w);
  }

  /** The decision is never left open, and dontask mode never asks. */
  lemma AlwaysDecides(tool: Tool, call: Call, ctx: Context, st: Settings, w: World)
    requires Sound(w)
    ensures Evaluate(tool, call, ctx, st, w).verdict != Passthrough
    ensures st.mode == DontAsk ==> Evaluate(tool, call, ctx, st, w).verdict != Ask
  {
    PreflightSound(tool, call, ctx, st, w);
    if w.check(call, ctx).Gave? && w.check(call, ctx).decision.updated.Some? {
      var updated := w.check(call, ctx).decision.updated.value;
      PreflightSound(tool, updated, BuildContext(updated, st, w), st, w);
    }
  }

  /** A preflight that ends in a refusal: by a check, or by a question that dontask mode answers. */
  predicate Stops(tool: Tool, call: Call, ctx: Context, st: Settings, w: World) {
    var d := Preflight(tool, call, ctx, st, w);
    d.Some? && (d.value.verdict == Deny || (d.value.verdict == Ask && st.mode == DontAsk))
  }

  /** A refusal after the checks: the tool refuses; or there would be a question in dontask mode; or
      the tool has no opinion, there is no ground, and the mode refuses what is not settled. */
  predicate Withheld(tool: Tool, call: Call, given: Decision, st: Settings, w: World) {
    || given.verdict == Deny
    || (st.mode == DontAsk && (given.verdict == Ask || tool.needsUser))
    || (&& (st.mode == Plan || st.mode == DontAsk) && given.verdict == Passthrough && !tool.needsUser
        && !Ground(tool, call, given.verdict, st, w))
  }

  lemma GrantDenyIff(tool: Tool, call: Call, given: Decision, st: Settings, w: World)
    ensures Grant(tool, call, given, st, w).verdict == Deny <==> Withheld(tool, call, given, st, w)
  {}

  /** A call is refused if and only if its arguments are stopped by a check, or the tool's check
      fails, or the rewritten arguments are stopped, or permission is withheld afterwards. */
  lemma DenyIff(tool: Tool, call: Call, ctx: Context, st: Settings, w: World)
    ensures Evaluate(tool, call, ctx, st, w).verdict == Deny <==>
            || Stops(tool, call, ctx, st, w)
            || (Preflight(tool, call, ctx, st, w).None? && Refused(tool, call, ctx, st, w))
  {
    if w.check(call, ctx).Gave? {
      var given := w.check(call, ctx).decision;
      GrantDenyIff(tool, Effective(call, given), given, st, w);
    }
  }

  /** The refusal of a call whose arguments passed, on what the tool answers. */
  predicate Refused(tool: Tool, call: Call, ctx: Context, st: Settings, w: World) {
    match w.check(call, ctx)
    case Failed => true
    case Gave(given) =>
      match given.updated
      case None => Withheld(tool, call, given, st, w)
      case Some(updated) =>
        var again := BuildContext(updated, st, w);
        || Stops(tool, updated, again, st, w)
        || (Preflight(tool, updated, again, st, w).None? && Withheld(tool, updated, given, st, w))
  }

  // ---- what a session grant means ----

  /** All marks are known, and there is one. */
  ghost predicate AllKnown(subs: seq<string>, normal: string -> string, known: set<string>) {
    && (exists sub :: sub in subs && normal(sub) != [])
    && forall sub :: sub in subs && normal(sub) != [] ==> normal(sub) in known
  }

  lemma MarksKnownIff(subs: seq<string>, normal: string -> string, known: set<string>)
    ensures Remembered(MarksBy(subs, normal), known) <==> AllKnown(subs, normal, known)
  {
    if sub :| sub in subs && normal(sub) != [] { assert normal(sub) in MarksBy(subs, normal); }
  }

  /** A shell call is granted for the session if and only if grants count, something in it can be remembered, and
      of every sub-command the normalised text is blank or was remembered. */
  lemma SessionAllowedIff(st: Settings, name: string, call: Call, w: World)
    requires Rules.IsShell(name)
    ensures SessionAllowed(st, name, call, w) <==>
            && !st.managed.managedRulesOnly
            && AllKnown(Split(call.offer.command, w.matcher.space), NormalBy(w.matcher), st.sessionCommands)
  {
    MarksKnownIff(Split(call.offer.command, w.matcher.space), NormalBy(w.matcher), st.sessionCommands);
  }

  /** One sub-command that was never remembered is enough: the call is not granted. */
  lemma UnrememberedNotGranted(st: Settings, name: string, call: Call, w: World, sub: string)
    requires Rules.IsShell(name) && sub in Split(call.offer.command, w.matcher.space)
    requires Rules.Normalize(sub, w.matcher) != [] && Rules.Normalize(sub, w.matcher) !in st.sessionCommands
    ensures !SessionAllowed(st, name, call, w)
  {
    SessionAllowedIff(st, name, call, w);
  }

  lemma MarksConcat(a: seq<string>, b: seq<string>, normal: string -> string)
    ensures MarksBy(a + b, normal) == MarksBy(a, normal) + MarksBy(b, normal)
  {}

  lemma FingerprintsCompose(l: string, op: string, r: string, m: Rules.Matcher)
    requires Separates(l, op, r)
    ensures Fingerprints(l + op + r, m) == Fingerprints(l, m) + Fingerprints(r, m)
  {
    SplitCompose(l, op, r, m.space);
    MarksConcat(Split(l, m.space), Split(r, m.space), NormalBy(m));
  }

  function WithCommand(call: Call, command: string): Call { call.(offer := call.offer.(command := command)) }

  lemma RememberedTogether(left: set<string>, right: set<string>, known: set<string>)
    ensures left != {} && right != {} ==>
              (Remembered(left + right, known) <==> Remembered(left, known) && Remembered(right, known))
    ensures left == {} ==> left + right == right
    ensures right == {} ==> left + right == left
  {}

  lemma SessionByMarks(st: Settings, name: string, call: Call, command: string, w: World)
    requires Rules.IsShell(name)
    ensures SessionAllowed(st, name, WithCommand(call, command), w) <==>
            !st.managed.managedRulesOnly && Remembered(Fingerprints(command, w.matcher), st.sessionCommands)
  {}

  /** A compound is granted for the session if and only if each side with something to remember is, and there is
      one; so when both have something, if and only if both are. */
  lemma SessionCompound(st: Settings, name: string, call: Call, l: string, op: string, r: string, w: World)
    requires Rules.IsShell(name) && Separates(l, op, r)
    ensures var left, right := Fingerprints(l, w.matcher), Fingerprints(r, w.matcher);
            var whole := SessionAllowed(st, name, WithCommand(call, l + op + r), w);
            var one := SessionAllowed(st, name, WithCommand(call, l), w);
            var two := SessionAllowed(st, name, WithCommand(call, r), w);
            && (left != {} && right != {} ==> (whole <==> one && two))
            && (left == {} ==> (whole <==> two)) && (right == {} ==> (whole <==> one))
  {
    ghost var left, right := Fingerprints(l, w.matcher), Fingerprints(r, w.matcher);
    SessionByMarks(st, name, call, l, w);
    SessionByMarks(st, name, call, r, w);
    SessionByMarks(st, name, call, l + op + r, w);
    FingerprintsCompose(l, op, r, w.matcher);
    RememberedTogether(left, right, st.sessionCommands);
  }

  /** Other tools are granted by name. */
  lemma SessionToolIff(st: Settings, name: string, call: Call, w: World)
    requires !Rules.IsShell(name)
    ensures SessionAllowed(st, name, call, w) <==> !st.managed.managedRulesOnly && name in st.sessionTools
  {}

  // ---- more rules ----

  function Rank(v: Verdict): nat { match v case Deny => 0 case Ask => 1 case Allow => 2 case Passthrough => 3 }

  function WithDeny(st: Settings, deny: seq<Rules.Rule>): Settings { st.(rules := st.rules.(deny := deny)) }
  function WithAsk(st: Settings, ask: seq<Rules.Rule>): Settings { st.(rules := st.rules.(ask := ask)) }
  function WithAllow(st: Settings, allow: seq<Rules.Rule>): Settings { st.(rules := st.rules.(allow := allow)) }

  lemma PreflightUnderDeny(tool: Tool, call: Call, ctx: Context, st: Settings, deny: seq<Rules.Rule>, w: World)
    requires Rules.Within(st.rules.deny, deny)
    ensures var more := Preflight(tool, call, ctx, WithDeny(st, deny), w);
            more == Preflight(tool, call, ctx, st, w) || more == Some(Denied())
  {
    var a := st.rules.deny;
    if Rules.Matches(a, tool.name, call.offer, Rules.Deny, None, w.matcher) {
      Rules.MatchesMonotone(a, deny, tool.name, call.offer, Rules.Deny, None, None, w.matcher);
    }
    var managed := Some(Rules.Managed);
    if Rules.Matches(a, tool.name, call.offer, Rules.Deny, managed, w.matcher) {
      Rules.MatchesMonotone(a, deny, tool.name, call.offer, Rules.Deny, managed, managed, w.matcher);
    }
  }

  lemma GrantIgnoresObjections(tool: Tool, call: Call, given: Decision, st: Settings, rules: Rules.RuleSet, w: World)
    requires rules.allow == st.rules.allow
    ensures Grant(tool, call, given, st.(rules := rules), w) == Grant(tool, call, given, st, w)
  {}

  /** Adding deny rules changes a decision only to a refusal. */
  lemma DenyRulesTighten(tool: Tool, call: Call, ctx: Context, st: Settings, deny: seq<Rules.Rule>, w: World)
    requires Rules.Within(st.rules.deny, deny)
    ensures var more := Evaluate(tool, call, ctx, WithDeny(st, deny), w);
            more == Evaluate(tool, call, ctx, st, w) || more.verdict == Deny
  {
    PreflightUnderDeny(tool, call, ctx, st, deny, w);
    if w.check(call, ctx).Gave? {
      var given := w.check(call, ctx).decision;
      GrantIgnoresObjections(tool, Effective(call, given), given, st, st.rules.(deny := deny), w);
      if given.updated.Some? {
        var updated := given.updated.value;
        PreflightUnderDeny(tool, updated, BuildContext(updated, st, w), st, deny, w);
      }
    }
  }

  lemma PreflightUnderAsk(tool: Tool, call: Call, ctx: Context, st: Settings, ask: seq<Rules.Rule>, w: World)
    requires Rules.Within(st.rules.ask, ask)
    ensures var before := Preflight(tool, call, ctx, st, w);
            Preflight(tool, call, ctx, WithAsk(st, ask), w) ==
              if before.None? && AskMatches(WithAsk(st, ask), tool.name, call, w)
              then Some(Decision(Ask, None, false, false)) else before
  {
    var a := st.rules.ask;
    if Rules.Matches(a, tool.name, call.offer, Rules.Ask, None, w.matcher) {
      Rules.MatchesMonotone(a, ask, tool.name, call.offer, Rules.Ask, None, None, w.matcher);
    }
  }

  /** Do the wider ask rules stop this call in a preflight that it passed before? */
  predicate NewlyAsked(tool: Tool, call: Call, ctx: Context, st: Settings, ask: seq<Rules.Rule>, w: World) {
    var wider := WithAsk(st, ask);
    && Preflight(tool, call, ctx, st, w).None?
    && (|| AskMatches(wider, tool.name, call, w)
        || (&& w.check(call, ctx).Gave? && w.check(call, ctx).decision.updated.Some?
            && var updated := w.check(call, ctx).decision.updated.value;
               && Preflight(tool, updated, BuildContext(updated, st, w), st, w).None?
               && AskMatches(wider, tool.name, updated, w)))
  }

  /** Wider ask rules change a decision only by asking in a preflight that was passed before. */
  lemma AskRulesEffect(tool: Tool, call: Call, ctx: Context, st: Settings, ask: seq<Rules.Rule>, w: World)
    requires Rules.Within(st.rules.ask, ask)
    ensures var wider := Evaluate(tool, call, ctx, WithAsk(st, ask), w);
            if NewlyAsked(tool, call, ctx, st, ask, w)
            then wider.verdict == (if st.mode == DontAsk then Deny else Ask)
            else wider == Evaluate(tool, call, ctx, st, w)
  {
    PreflightUnderAsk(tool, call, ctx, st, ask, w);
    if w.check(call, ctx).Gave? {
      var given := w.check(call, ctx).decision;
      GrantIgnoresObjections(tool, Effective(call, given), given, st, st.rules.(ask := ask), w);
      if given.updated.Some? {
        var updated := given.updated.value;
        PreflightUnderAsk(tool, updated, BuildContext(updated, st, w), st, ask, w);
      }
    }
  }

  /** An ask rule can make a decision more permissive, because it answers before the tool does:
      exactly when it newly applies, outside dontask mode, to a call whose arguments pass and which
      the tool, its rewritten arguments or the mode would have refused. */
  lemma AskRulesLoosenIff(tool: Tool, call: Call, ctx: Context, st: Settings, ask: seq<Rules.Rule>, w: World)
    requires Sound(w) && Rules.Within(st.rules.ask, ask)
    ensures var before, wider := Evaluate(tool, call, ctx, st, w), Evaluate(tool, call, ctx, WithAsk(st, ask), w);
            Rank(before.verdict) < Rank(wider.verdict) <==>
            NewlyAsked(tool, call, ctx, st, ask, w) && st.mode != DontAsk && Refused(tool, call, ctx, st, w)
  {
    AskRulesEffect(tool, call, ctx, st, ask, w);
    AlwaysDecides(tool, call, ctx, st, w);
    DenyIff(tool, call, ctx, st, w);
  }

  const WRITER: Tool := Tool("writer", Write, false)
  const ASK_WRITER: Rules.Rule := Rules.Rule("writer", None, Rules.Project)

  /** A world without objections of its own, where the tool refuses every call. */
  function RefusingWorld(m: Rules.Matcher): World {
    World(c => true, (c, x) => None, (c, x) => None, c => false, c => false, (c, x) => Gave(Denied()), m)
  }

  /** A rule that asks about the tool turns its refusal into a question. */
  lemma AskRuleHidesRefusal(call: Call, ctx: Context, m: Rules.Matcher)
    ensures var none := Rules.RuleSet([], [], []);
            var st := Settings(Default, none, Managed({}, false, false), {}, {}, true, false, None);
            var open := ctx.(isSubagent := false);
            && Evaluate(WRITER, call, open, st, RefusingWorld(m)).verdict == Deny
            && Evaluate(WRITER, call, open, WithAsk(st, [ASK_WRITER]), RefusingWorld(m)).verdict == Ask
  {
    var st := Settings(Default, Rules.RuleSet([], [], []), Managed({}, false, false), {}, {}, true, false, None);
    var w, open := RefusingWorld(m), ctx.(isSubagent := false);
    NoRules("writer", call.offer, Rules.Deny, None, m);
    NoRules("writer", call.offer, Rules.Deny, Some(Rules.Managed), m);
    NoRules("writer", call.offer, Rules.Ask, None, m);
    assert Preflight(WRITER, call, open, st, w) == None;
    WholeToolRule("writer", call.offer, m);
  }

  lemma NoRules(name: string, offer: Rules.Arguments, behavior: Rules.Behavior, origin: Option<Rules.Origin>,
      m: Rules.Matcher)
    requires !Rules.IsShell(name)
    ensures !Rules.Matches([], name, offer, behavior, origin, m)
  {
    assert Rules.Scoped([], name, origin) == [] && Rules.Patterns([]) == [];
  }

  lemma WholeToolRule(name: string, offer: Rules.Arguments, m: Rules.Matcher)
    ensures Rules.Matches([Rules.Rule(name, None, Rules.Project)], name, offer, Rules.Ask, None, m)
  {
    var rule := Rules.Rule(name, None, Rules.Project);
    var scoped := Rules.Scoped([rule], name, None);
    assert rule in [rule] && Rules.InScope(rule, name, None);
    assert rule in scoped;
  }

  lemma AllowMatchesWider(st: Settings, name: string, call: Call, allow: seq<Rules.Rule>, w: World)
    requires Rules.Within(st.rules.allow, allow) && AllowMatches(st, name, call, w)
    ensures AllowMatches(WithAllow(st, allow), name, call, w)
  {
    var origin := if st.managed.managedRulesOnly then Some(Rules.Managed) else None;
    Rules.MatchesMonotone(st.rules.allow, allow, name, call.offer, Rules.Allow, origin, origin, w.matcher);
  }

  lemma SessionIgnoresRules(st: Settings, name: string, call: Call, allow: seq<Rules.Rule>, w: World)
    ensures SessionAllowed(WithAllow(st, allow), name, call, w) == SessionAllowed(st, name, call, w)
  {}

  lemma GrantUnderAllow(tool: Tool, call: Call, given: Decision, st: Settings, allow: seq<Rules.Rule>, w: World)
    requires Rules.Within(st.rules.allow, allow)
    ensures var wider := Grant(tool, call, given, WithAllow(st, allow), w);
            wider == Grant(tool, call, given, st, w) || wider.verdict == Allow
    ensures given.verdict in {Deny, Ask} || tool.needsUser ==>
              Grant(tool, call, given, WithAllow(st, allow), w) == Grant(tool, call, given, st, w)
  {
    if AllowMatches(st, tool.name, call, w) { AllowMatchesWider(st, tool.name, call, allow, w); }
    SessionIgnoresRules(st, tool.name, call, allow, w);
  }

  lemma PreflightIgnoresAllow(tool: Tool, call: Call, ctx: Context, st: Settings, allow: seq<Rules.Rule>, w: World)
    ensures Preflight(tool, call, ctx, WithAllow(st, allow), w) == Preflight(tool, call, ctx, st, w)
  {}

  /** Adding allow rules changes a decision only into allowing, and only where every check passed
      and the tool neither refuses nor asks nor needs the user. */
  lemma AllowRulesOnlyGrant(tool: Tool, call: Call, ctx: Context, st: Settings, allow: seq<Rules.Rule>, w: World)
    requires Rules.Within(st.rules.allow, allow)
    ensures var before := Evaluate(tool, call, ctx, st, w);
            var wider := Evaluate(tool, call, ctx, WithAllow(st, allow), w);
            wider != before ==>
              && wider.verdict == Allow && Preflight(tool, call, ctx, st, w).None? && !tool.needsUser
              && w.check(call, ctx).Gave? && w.check(call, ctx).decision.verdict !in {Deny, Ask}
  {
    PreflightIgnoresAllow(tool, call, ctx, st, allow, w);
    if w.check(call, ctx).Gave? {
      var given := w.check(call, ctx).decision;
      GrantUnderAllow(tool, Effective(call, given), given, st, allow, w);
      if given.updated.Some? {
        var updated := given.updated.value;
        PreflightIgnoresAllow(tool, updated, BuildContext(updated, st, w), st, allow, w);
      }
    }
  }
}
