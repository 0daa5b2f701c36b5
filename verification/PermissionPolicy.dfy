/**
 * The policy object: it reloads the administrator's rules before each decision, and collects
 * grants made during the session.
 */
module PermissionPolicyState {
  import opened Wrappers
  import opened ShellSplit
  import Rules = ShellRules
  import opened Permissions

  /** What the administrator's policy provider returns. */
  datatype Definition = Definition(rules: Rules.RuleSet, snapshot: Managed)

  /** The rules in force: the administrator's, then the configured ones, then the session's. */
  function InForce(managed: Rules.RuleSet, base: Rules.RuleSet, session: Rules.RuleSet): Rules.RuleSet {
    Rules.Merge(Rules.Merge(managed, base), session)
  }

  lemma SessionExtends(managed: Rules.RuleSet, base: Rules.RuleSet, session: Rules.RuleSet, more: Rules.RuleSet)
    ensures Rules.Merge(InForce(managed, base, session), more) == InForce(managed, base, Rules.Merge(session, more))
  {}

  lemma SessionStartsEmpty(managed: Rules.RuleSet, base: Rules.RuleSet)
    ensures InForce(managed, base, Rules.RuleSet([], [], [])) == Rules.Merge(managed, base)
  {
    var merged := Rules.Merge(managed, base);
    assert merged.allow + [] == merged.allow && merged.deny + [] == merged.deny && merged.ask + [] == merged.ask;
  }

  method CollectMarks(command: string, m: Rules.Matcher) returns (marks: set<string>)
    ensures marks == Fingerprints(command, m)
  {
    var parts := SplitSubcommands(command, m.space);
    marks := MarksOf(parts, m);
  }

  method MarksOf(parts: seq<string>, m: Rules.Matcher) returns (marks: set<string>)
    ensures marks == Marks(parts, m)
  {
    marks := {};
    ghost var goal := Marks(parts, m);
    assert parts[..0] == [];
    for i := 0 to |parts|
      invariant marks == Marks(parts[..i], m)
    {
      MarksNext(parts, i, m);
      var normalized := Rules.Normalize(parts[i], m);
      if normalized != [] { marks := marks + {normalized}; }
    }
    assert parts[..|parts|] == parts;
  }

  class PermissionPolicy {
    const mode: Mode
    const base: Rules.RuleSet
    const fixedSnapshot: bool
    const unsandboxedAllowed: bool
    const isSubagent: bool
    const parentMode: Option<Mode>
    var session: Rules.RuleSet
    var rules: Rules.RuleSet
    var managed: Managed
    var reloadFailed: bool
    var sessionTools: set<string>
    var sessionCommands: set<string>
    /** The administrator's rules of the last successful load. */
    ghost var managedRules: Rules.RuleSet

    ghost predicate Valid()
      reads this
    {
      rules == InForce(managedRules, base, session)
    }

    function View(): Settings
      reads this
    {
      Settings(mode, rules, managed, sessionTools, sessionCommands, unsandboxedAllowed, isSubagent, parentMode)
    }

    constructor (mode: Mode, base: Rules.RuleSet, definition: Definition, override: Option<Managed>,
      unsandboxedAllowed: bool, isSubagent: bool, parentMode: Option<Mode>)
      ensures Valid() && !reloadFailed
      ensures View() == Settings(mode, Rules.Merge(definition.rules, base),
                if override.Some? then override.value else definition.snapshot,
                {}, {}, unsandboxedAllowed, isSubagent, parentMode)
    {
      this.mode, this.base, fixedSnapshot := mode, base, override.Some?;
      this.unsandboxedAllowed, this.isSubagent, this.parentMode := unsandboxedAllowed, isSubagent, parentMode;
      session := Rules.RuleSet([], [], []);
      rules := Rules.Merge(definition.rules, base);
      managed := if override.Some? then override.value else definition.snapshot;
      reloadFailed, sessionTools, sessionCommands := false, {}, {};
      managedRules := definition.rules;
      SessionStartsEmpty(definition.rules, base);
    }

    /** A successful reload replaces the administrator's part and keeps the rest; a failed one
        changes no rule and is reported. */
    method Refresh(loaded: Option<Definition>) returns (failed: bool)
      requires Valid()
      modifies this`rules, this`managed, this`reloadFailed, this`managedRules
      ensures Valid()
      ensures failed <==> !fixedSnapshot && loaded.None?
      ensures failed ==> reloadFailed
      ensures failed || fixedSnapshot ==> View() == old(View())
      ensures !failed && !fixedSnapshot ==>
                && View() == old(View()).(rules := InForce(loaded.value.rules, base, session),
                    managed := loaded.value.snapshot)
                && managedRules == loaded.value.rules && !reloadFailed
    {
      if fixedSnapshot { return false; }
      if loaded.None? {
        reloadFailed := true;
        return true;
      }
      managed := loaded.value.snapshot;
      rules := Rules.Merge(Rules.Merge(loaded.value.rules, base), session);
      reloadFailed := false;
      managedRules := loaded.value.rules;
      return false;
    }

    /** Grants a rule for the session; it survives every later reload. */
    method AddSessionRule(rule: Rules.Rule)
      requires Valid()
      modifies this`session, this`rules
      ensures Valid()
      ensures session == Rules.Merge(old(session), Rules.RuleSet([rule], [], []))
      ensures rule in rules.allow
      ensures rules == Rules.Merge(old(rules), Rules.RuleSet([rule], [], []))
    {
      var parsed := Rules.RuleSet([rule], [], []);
      SessionExtends(managedRules, base, session, parsed);
      session := Rules.Merge(session, parsed);
      rules := Rules.Merge(rules, parsed);
      assert rules.allow[|rules.allow| - 1] == rule;
    }

    /** Remembers a confirmed call; from then on the same call is allowed for the session, unless
        only the administrator's rules count or a command line has nothing to remember. */
    method RememberAlways(tool: Tool, call: Call, w: World)
      requires Valid()
      modifies this`sessionTools, this`sessionCommands
      ensures Valid()
      ensures sessionTools == old(sessionTools) + (if Rules.IsShell(tool.name) then {} else {tool.name})
      ensures sessionCommands == old(sessionCommands) +
                (if Rules.IsShell(tool.name) then Fingerprints(call.offer.command, w.matcher) else {})
      ensures SessionAllowed(View(), tool.name, call, w) <==>
                && !managed.managedRulesOnly
                && (Rules.IsShell(tool.name) ==> Fingerprints(call.offer.command, w.matcher) != {})
    {
      if !Rules.IsShell(tool.name) {
        sessionTools := sessionTools + {tool.name};
        return;
      }
      var marks := CollectMarks(call.offer.command, w.matcher);
      sessionCommands := sessionCommands + marks;
    }

    /** One decision: reload first, then decide on the reloaded state. */
    method Decide(tool: Tool, call: Call, given: Option<Context>, loaded: Option<Definition>, w: World)
        returns (d: Decision)
      requires Valid()
      modifies this`rules, this`managed, this`reloadFailed, this`managedRules
      ensures Valid()
      ensures !fixedSnapshot && loaded.None? ==> d == Denied() && View() == old(View())
      ensures fixedSnapshot || loaded.Some? ==>
                d == Evaluate(tool, call, if given.Some? then given.value else BuildContext(call, View(), w), View(), w)
    {
      var failed := Refresh(loaded);
      if failed { return Denied(); }
      var st := View();
      var ctx := if given.Some? then given.value else BuildContext(call, st, w);
      var preflight := Preflight(tool, call, ctx, st, w);
      if preflight.Some? { return FinalMode(preflight.value, tool, st); }
      var answer := w.check(call, ctx);
      if answer.Failed? { return Denied(); }
      var arguments := call;
      if answer.decision.updated.Some? {
        arguments := answer.decision.updated.value;
        var again := Preflight(tool, arguments, BuildContext(arguments, st, w), st, w);
        if again.Some? { return FinalMode(again.value, tool, st); }
      }
      return Grant(tool, arguments, answer.decision, st, w);
    }
  }
}
