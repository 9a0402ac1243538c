/** Collecting permission rules from the two configuration documents. */
module RuleExtraction {
  import opened Wrappers
  import opened Documents
  import PermissionRules

  datatype Scope = Global | Project

  datatype Decision = Allow | Deny | Ask

  datatype ConfigRule = ConfigRule(scope: Scope, decision: Decision, rule: PermissionRules.Rule)

  /** The order the fields are read in. */
  const FIELDS: seq<(string, Decision)> := [("allow", Allow), ("deny", Deny), ("ask", Ask)]

  /** The rules an array of texts stands for, unless an entry is no rule. */
  function EntryRules(entries: seq<Value>, scope: Scope, decision: Decision): Option<seq<ConfigRule>> {
    if entries == [] then Some([])
    else
      var first := if entries[0].Text? then PermissionRules.ParseRule(entries[0].text) else None;
      var rest := EntryRules(entries[1..], scope, decision);
      if first.None? || rest.None? then None
      else Some([ConfigRule(scope, decision, first.value)] + rest.value)
  }

  function Permissions(document: Document): Document {
    if "permissions" in document && document["permissions"].Table? then document["permissions"].entries else map[]
  }

  /** The entries of one field; a field that is no array has none. */
  function FieldEntries(document: Document, field: string): seq<Value> {
    var permissions := Permissions(document);
    if field in permissions && permissions[field].Array? then permissions[field].items else []
  }

  /** The rules of the fields from `i` on. */
  function FieldRules(document: Document, scope: Scope, i: nat): Option<seq<ConfigRule>>
    requires i <= |FIELDS|
    decreases |FIELDS| - i
  {
    if i == |FIELDS| then Some([])
    else
      var first := EntryRules(FieldEntries(document, FIELDS[i].0), scope, FIELDS[i].1);
      var rest := FieldRules(document, scope, i + 1);
      if first.None? || rest.None? then None else Some(first.value + rest.value)
  }

  function ScopedRules(document: Document, scope: Scope): Option<seq<ConfigRule>> {
    FieldRules(document, scope, 0)
  }

  /** Everything `more` adds behind `rules`, or nothing at all. */
  function Behind(rules: seq<ConfigRule>, more: Option<seq<ConfigRule>>): Option<seq<ConfigRule>> {
    if more.None? then None else Some(rules + more.value)
  }

  /** The inner loop: pushes the rules of one field. */
  method PushEntries(entries: seq<Value>, scope: Scope, decision: Decision, rules: seq<ConfigRule>)
    returns (extended: Option<seq<ConfigRule>>)
    ensures extended == Behind(rules, EntryRules(entries, scope, decision))
  {
    var collected := rules;
    for index := 0 to |entries|
      invariant Behind(rules, EntryRules(entries, scope, decision))
                == Behind(collected, EntryRules(entries[index..], scope, decision))
    {
      if !entries[index].Text? {
        return None;
      }
      var rule := PermissionRules.ParseRule(entries[index].text);
      if rule.None? {
        return None;
      }
      BehindFirst(collected, ConfigRule(scope, decision, rule.value),
                  EntryRules(entries[index + 1..], scope, decision));
      assert entries[index..][1..] == entries[index + 1..];
      collected := collected + [ConfigRule(scope, decision, rule.value)];
    }
    assert collected + [] == collected;
    extended := Some(collected);
  }

  lemma BehindFirst(rules: seq<ConfigRule>, first: ConfigRule, rest: Option<seq<ConfigRule>>)
    ensures rest.Some? ==> rules + ([first] + rest.value) == rules + [first] + rest.value
  {
  }

  lemma FieldRound(document: Document, scope: Scope, i: nat, rules: seq<ConfigRule>)
    requires i < |FIELDS|
    ensures var more := Behind(rules, EntryRules(FieldEntries(document, FIELDS[i].0), scope, FIELDS[i].1));
      Behind(rules, FieldRules(document, scope, i))
      == if more.None? then None else Behind(more.value, FieldRules(document, scope, i + 1))
  {
    var first := EntryRules(FieldEntries(document, FIELDS[i].0), scope, FIELDS[i].1);
    var rest := FieldRules(document, scope, i + 1);
    if first.Some? && rest.Some? {
      assert rules + (first.value + rest.value) == rules + first.value + rest.value;
    }
  }

  /** `extract_scoped_permission_rules`. */
  method ExtractScoped(document: Document, scope: Scope, rules: seq<ConfigRule>)
    returns (extended: Option<seq<ConfigRule>>)
    ensures extended == Behind(rules, ScopedRules(document, scope))
  {
    var collected := rules;
    for i := 0 to |FIELDS|
      invariant Behind(rules, ScopedRules(document, scope)) == Behind(collected, FieldRules(document, scope, i))
    {
      FieldRound(document, scope, i, collected);
      var (field, decision) := FIELDS[i];
      var more := PushEntries(FieldEntries(document, field), scope, decision, collected);
      if more.None? {
        return None;
      }
      collected := more.value;
    }
    assert collected + [] == collected;
    extended := Some(collected);
  }

  /** `extract_permission_rules`; whether a document passes validation is given. */
  function ExtractRules(validates: Document -> bool, global: Document, project: Document): Option<seq<ConfigRule>> {
    if !validates(global) || !validates(project) then None
    else
      var rules := ScopedRules(global, Global);
      if rules.None? then None else Behind(rules.value, ScopedRules(project, Project))
  }

  // -------------------------------------------------------------- properties

  /** The entry is the printed rule. */
  ghost predicate SpellsOne(entry: Value, rule: ConfigRule, scope: Scope, decision: Decision) {
    && rule.scope == scope && rule.decision == decision
    && PermissionRules.WellFormed(rule.rule)
    && entry == Text(PermissionRules.Print(rule.rule))
  }

  /** The entries are the printed rules, in order. */
  ghost predicate Spells(entries: seq<Value>, rules: seq<ConfigRule>, scope: Scope, decision: Decision) {
    && |entries| == |rules|
    && forall i :: 0 <= i < |rules| ==> SpellsOne(entries[i], rules[i], scope, decision)
  }

  lemma SpellsCons(entries: seq<Value>, rules: seq<ConfigRule>, scope: Scope, decision: Decision)
    requires entries != [] && rules != []
    ensures Spells(entries, rules, scope, decision)
            <==> SpellsOne(entries[0], rules[0], scope, decision) && Spells(entries[1..], rules[1..], scope, decision)
  {
    if Spells(entries[1..], rules[1..], scope, decision) && SpellsOne(entries[0], rules[0], scope, decision) {
      forall i | 0 <= i < |rules|
        ensures SpellsOne(entries[i], rules[i], scope, decision)
      {
        if i > 0 {
          assert SpellsOne(entries[1..][i - 1], rules[1..][i - 1], scope, decision);
        }
      }
    }
  }

  lemma ParsedIffSpelled(entry: Value, rule: ConfigRule, scope: Scope, decision: Decision)
    ensures SpellsOne(entry, rule, scope, decision)
            <==> entry.Text? && PermissionRules.ParseRule(entry.text) == Some(rule.rule)
                 && rule == ConfigRule(scope, decision, rule.rule)
  {
    if entry.Text? {
      PermissionRules.ParsePrint(entry.text, rule.rule);
    }
  }

  /** An array yields a list of rules exactly when it spells that list out. */
  lemma {:induction false} EntriesSpellTheRules(
    entries: seq<Value>, scope: Scope, decision: Decision, rules: seq<ConfigRule>)
    ensures EntryRules(entries, scope, decision) == Some(rules) <==> Spells(entries, rules, scope, decision)
  {
    if entries != [] && rules != [] {
      EntriesSpellTheRules(entries[1..], scope, decision, rules[1..]);
      SpellsCons(entries, rules, scope, decision);
      ParsedIffSpelled(entries[0], rules[0], scope, decision);
      assert rules == [rules[0]] + rules[1..];
    }
  }

  function OfScope(rules: seq<ConfigRule>, scope: Scope): seq<ConfigRule> {
    if rules == [] then []
    else (if rules[0].scope == scope then [rules[0]] else []) + OfScope(rules[1..], scope)
  }

  lemma {:induction false} OfScopeAppends(left: seq<ConfigRule>, right: seq<ConfigRule>, scope: Scope)
    ensures OfScope(left + right, scope) == OfScope(left, scope) + OfScope(right, scope)
  {
    if left == [] {
      assert left + right == right;
    } else {
      OfScopeAppends(left[1..], right, scope);
      assert left + right == [left[0]] + (left[1..] + right);
      var kept := if left[0].scope == scope then [left[0]] else [];
      assert kept + (OfScope(left[1..], scope) + OfScope(right, scope))
             == kept + OfScope(left[1..], scope) + OfScope(right, scope);
    }
  }

  lemma {:induction false} OfScopeUniform(rules: seq<ConfigRule>, scope: Scope, wanted: Scope)
    requires forall i :: 0 <= i < |rules| ==> rules[i].scope == scope
    ensures OfScope(rules, wanted) == if scope == wanted then rules else []
  {
    if rules != [] {
      OfScopeUniform(rules[1..], scope, wanted);
    }
  }

  lemma {:induction false} FieldRulesHaveScope(document: Document, scope: Scope, i: nat)
    requires i <= |FIELDS| && FieldRules(document, scope, i).Some?
    ensures forall k :: 0 <= k < |FieldRules(document, scope, i).value| ==>
              FieldRules(document, scope, i).value[k].scope == scope
    decreases |FIELDS| - i
  {
    if i < |FIELDS| {
      var entries := FieldEntries(document, FIELDS[i].0);
      var first := EntryRules(entries, scope, FIELDS[i].1);
      EntriesSpellTheRules(entries, scope, FIELDS[i].1, first.value);
      FieldRulesHaveScope(document, scope, i + 1);
    }
  }

  /** The rules of each scope are that scope's document's own, in its order. */
  lemma ScopesStayApart(validates: Document -> bool, global: Document, project: Document)
    requires ExtractRules(validates, global, project).Some?
    ensures var rules := ExtractRules(validates, global, project).value;
      && Some(OfScope(rules, Global)) == ScopedRules(global, Global)
      && Some(OfScope(rules, Project)) == ScopedRules(project, Project)
  {
    var left, right := ScopedRules(global, Global).value, ScopedRules(project, Project).value;
    FieldRulesHaveScope(global, Global, 0);
    FieldRulesHaveScope(project, Project, 0);
    forall wanted
      ensures OfScope(left + right, wanted) == if wanted == Global then left else right
    {
      OfScopeAppends(left, right, wanted);
      OfScopeUniform(left, Global, wanted);
      OfScopeUniform(right, Project, wanted);
    }
  }

  lemma EmptyDocumentHasNoRules()
    ensures ScopedRules(map[], Global) == Some([])
  {
    var none: seq<ConfigRule> := [];
    assert none + none == none;
    assert FieldRules(map[], Global, 3) == Some(none);
    assert FieldRules(map[], Global, 2) == Some([]);
    assert FieldRules(map[], Global, 1) == Some([]);
  }

  // ------------------------------------------------- what a document's rules are

  /** The array a document holds under `permissions`, or nothing to spell out. */
  function ArrayUnder(document: Document, key: string): seq<Value> {
    match Lookup(document, ["permissions", key])
    case Some(Array(items)) => items
    case _ => []
  }

  /** `allow` is spelled by the rules that allow, `deny` by those that deny, and
      `ask` by those that ask. */
  ghost predicate SpelledOut(
    document: Document, scope: Scope, allowed: seq<ConfigRule>, denied: seq<ConfigRule>, asked: seq<ConfigRule>)
  {
    && Spells(ArrayUnder(document, "allow"), allowed, scope, Allow)
    && Spells(ArrayUnder(document, "deny"), denied, scope, Deny)
    && Spells(ArrayUnder(document, "ask"), asked, scope, Ask)
  }

  /** The rules are those spelled out under the three keys, in that order. */
  ghost predicate Holds(document: Document, scope: Scope, rules: seq<ConfigRule>) {
    exists allowed, denied, asked ::
      SpelledOut(document, scope, allowed, denied, asked) && rules == allowed + denied + asked
  }

  lemma EntriesUnder(document: Document, key: string)
    ensures FieldEntries(document, key) == ArrayUnder(document, key)
  {
    LookupField(document, "permissions", key);
  }

  function Joined(first: Option<seq<ConfigRule>>, rest: Option<seq<ConfigRule>>): Option<seq<ConfigRule>> {
    if first.None? || rest.None? then None else Some(first.value + rest.value)
  }

  lemma FieldAt(document: Document, scope: Scope, i: nat, key: string, decision: Decision)
    requires i < |FIELDS| && FIELDS[i] == (key, decision)
    ensures FieldRules(document, scope, i)
            == Joined(EntryRules(ArrayUnder(document, key), scope, decision), FieldRules(document, scope, i + 1))
  {
    EntriesUnder(document, key);
  }

  lemma JoinedThree(a: Option<seq<ConfigRule>>, b: Option<seq<ConfigRule>>, c: Option<seq<ConfigRule>>)
    ensures Joined(a, Joined(b, Joined(c, Some([]))))
            == if a.None? || b.None? || c.None? then None else Some(a.value + b.value + c.value)
  {
    if a.Some? && b.Some? && c.Some? {
      assert a.value + (b.value + (c.value + [])) == a.value + b.value + c.value;
    }
  }

  lemma ScopedRulesInThree(document: Document, scope: Scope)
    ensures var allowed := EntryRules(ArrayUnder(document, "allow"), scope, Allow);
      var denied := EntryRules(ArrayUnder(document, "deny"), scope, Deny);
      var asked := EntryRules(ArrayUnder(document, "ask"), scope, Ask);
      ScopedRules(document, scope)
      == if allowed.None? || denied.None? || asked.None? then None
         else Some(allowed.value + denied.value + asked.value)
  {
    FieldAt(document, scope, 0, "allow", Allow);
    FieldAt(document, scope, 1, "deny", Deny);
    FieldAt(document, scope, 2, "ask", Ask);
    assert FieldRules(document, scope, 3) == Some([]);
    JoinedThree(EntryRules(ArrayUnder(document, "allow"), scope, Allow),
                EntryRules(ArrayUnder(document, "deny"), scope, Deny),
                EntryRules(ArrayUnder(document, "ask"), scope, Ask));
  }

  /** A document has these rules exactly if it spells them out: what stands under
      `permissions.allow` allows, under `permissions.deny` denies, and under
      `permissions.ask` asks; a key that is absent or no array spells nothing. */
  lemma RulesAreSpelledOut(document: Document, scope: Scope, rules: seq<ConfigRule>)
    ensures ScopedRules(document, scope) == Some(rules) <==> Holds(document, scope, rules)
  {
    ScopedRulesInThree(document, scope);
    var allow, deny, ask := ArrayUnder(document, "allow"), ArrayUnder(document, "deny"), ArrayUnder(document, "ask");
    forall allowed, denied, asked
      ensures SpelledOut(document, scope, allowed, denied, asked)
              <==> EntryRules(allow, scope, Allow) == Some(allowed)
                   && EntryRules(deny, scope, Deny) == Some(denied)
                   && EntryRules(ask, scope, Ask) == Some(asked)
    {
      EntriesSpellTheRules(allow, scope, Allow, allowed);
      EntriesSpellTheRules(deny, scope, Deny, denied);
      EntriesSpellTheRules(ask, scope, Ask, asked);
    }
    if ScopedRules(document, scope) == Some(rules) {
      assert SpelledOut(document, scope, EntryRules(allow, scope, Allow).value, EntryRules(deny, scope, Deny).value,
                        EntryRules(ask, scope, Ask).value);
    }
  }

  /** Two documents yield rules exactly if both validate, and they are the global
      document's followed by the project's. */
  lemma ExtractedIff(
    validates: Document -> bool, global: Document, project: Document,
    left: seq<ConfigRule>, right: seq<ConfigRule>)
    requires Holds(global, Global, left) && Holds(project, Project, right)
    ensures ExtractRules(validates, global, project)
            == if validates(global) && validates(project) then Some(left + right) else None
  {
    RulesAreSpelledOut(global, Global, left);
    RulesAreSpelledOut(project, Project, right);
  }

  /** Otherwise there are none. */
  lemma ExtractionFails(validates: Document -> bool, global: Document, project: Document)
    requires (forall rules :: !Holds(global, Global, rules)) || (forall rules :: !Holds(project, Project, rules))
    ensures ExtractRules(validates, global, project).None?
  {
    var left, right := ScopedRules(global, Global), ScopedRules(project, Project);
    if left.Some? {
      RulesAreSpelledOut(global, Global, left.value);
    }
    if right.Some? {
      RulesAreSpelledOut(project, Project, right.value);
    }
  }
}
