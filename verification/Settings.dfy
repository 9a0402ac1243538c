/**
  Catalog settings of agens-config, and the layer each effective value is
  attributed to.
*/
module Settings {
  import opened Wrappers
  import opened Documents

  /** The shapes a setting is read in. */
  datatype Kind = BooleanKind | IntegerKind | TextKind | ChoiceKind | TextListKind

  datatype Configured =
    | Flag(flag: bool)
    | Number(number: int)
    | Words(text: string)
    | WordList(texts: seq<string>)
    | Absent

  /** Ordered by precedence, lowest first. */
  datatype Origin = Default | Global | Project | Environment

  datatype Spec = Spec(table: string, key: string, kind: Kind, default: Configured)

  datatype Resolved = Resolved(value: Configured, origin: Origin)

  const SETTINGS: seq<Spec> := [
    Spec("options", "debug", BooleanKind, Flag(true)),
    Spec("options", "data_dir", TextKind, Absent),
    Spec("provider", "model", TextKind, Absent),
    Spec("provider", "base_url", TextKind, Absent),
    Spec("agent", "system_prompt", TextKind, Absent),
    Spec("agent", "max_iterations", IntegerKind, Absent),
    Spec("agent", "parallel_tool_calls", BooleanKind, Flag(true)),
    Spec("agent", "bypass_permission_prompts", BooleanKind, Flag(false)),
    Spec("agent", "unattended_permission_wait_ms", IntegerKind, Number(300_000)),
    Spec("agent", "deny_unattended_permission_prompts", BooleanKind, Flag(false)),
    Spec("agent", "default_agent", TextKind, Absent),
    Spec("agent", "reasoning_effort", ChoiceKind, Absent),
    Spec("ui", "collapse_thinking", BooleanKind, Flag(false)),
    Spec("tools", "max_list_entries", IntegerKind, Number(1_000)),
    Spec("tools", "max_search_entries", IntegerKind, Number(10_000)),
    Spec("tools", "max_search_results", IntegerKind, Number(100)),
    Spec("tools", "max_search_depth", IntegerKind, Number(32)),
    Spec("tools", "operation_timeout_ms", IntegerKind, Number(5_000)),
    Spec("tools", "bash_timeout_ms", IntegerKind, Number(120_000)),
    Spec("subagents", "check_interval", IntegerKind, Number(32)),
    Spec("subagents", "max_concurrency", IntegerKind, Number(4)),
    Spec("subagents", "max_output_chars", IntegerKind, Number(65_536)),
    Spec("mcp_defaults", "timeout_ms", IntegerKind, Number(30_000)),
    Spec("mcp_defaults", "connect_timeout_ms", IntegerKind, Number(10_000)),
    Spec("mcp_defaults", "max_retries", IntegerKind, Number(0)),
    Spec("team", "checkpoint_grace_percent", IntegerKind, Number(150)),
    Spec("team", "first_checkpoint_seconds", IntegerKind, Number(3_600)),
    Spec("team", "quota_window_seconds", IntegerKind, Number(900)),
    Spec("team", "project_roots", TextListKind, Absent),
    Spec("team", "hook_exports", TextListKind, Absent)
  ]

  /** The texts among the items of an array. */
  function Texts(items: seq<Value>): seq<string> {
    if items == [] then []
    else (if items[0].Text? then [items[0].text] else []) + Texts(items[1..])
  }

  /** `ConfiguredValue::read`. */
  function Read(value: Value, kind: Kind): Option<Configured> {
    match kind
    case BooleanKind => if value.Boolean? then Some(Flag(value.flag)) else None
    case IntegerKind => if value.Integer? then Some(Number(value.number)) else None
    case TextKind => if value.Text? then Some(Words(value.text)) else None
    case ChoiceKind => if value.Text? then Some(Words(value.text)) else None
    case TextListKind => if value.Array? then Some(WordList(Texts(value.items))) else None
  }

  /** `lookup_setting`. */
  function LookupSetting(document: Document, spec: Spec): Option<Configured> {
    match Lookup(document, [spec.table, spec.key])
    case Some(value) => Read(value, spec.kind)
    case None => None
  }

  /** What the layers document, the project's word first. */
  function Documented(global: Document, project: Document, spec: Spec): Option<Resolved> {
    match LookupSetting(project, spec)
    case Some(value) => Some(Resolved(value, Project))
    case None =>
      match LookupSetting(global, spec)
      case Some(value) => Some(Resolved(value, Global))
      case None => None
  }

  /** The layered value before any expansion: Project, else Global, else Default. */
  function Layered(global: Document, project: Document, spec: Spec): Resolved {
    match Documented(global, project, spec)
    case Some(resolved) => resolved
    case None => Resolved(spec.default, Default)
  }

  function ResolveSetting(global: Document, project: Document, expanded: Document, spec: Spec): Resolved {
    match (Documented(global, project, spec), LookupSetting(expanded, spec))
    case (Some(layer), Some(effective)) =>
      Resolved(effective, if layer.value == effective then layer.origin else Environment)
    case (Some(layer), None) => layer
    case (None, _) => Resolved(spec.default, Default)
  }

  /** `resolve_settings`: one entry per catalog row, in catalog order. */
  method ResolveSettings(catalog: seq<Spec>, global: Document, project: Document, expanded: Document)
    returns (entries: seq<(Spec, Resolved)>)
    ensures entries == ResolveAll(catalog, global, project, expanded)
  {
    entries := [];
    for i := 0 to |catalog|
      invariant entries == ResolveAll(catalog[..i], global, project, expanded)
    {
      var spec := catalog[i];
      var documented := Documented(global, project, spec);
      var effective := LookupSetting(expanded, spec);
      var setting;
      if documented.Some? && effective.Some? {
        var origin := if documented.value.value == effective.value then documented.value.origin else Environment;
        setting := Resolved(effective.value, origin);
      } else if documented.Some? {
        setting := documented.value;
      } else {
        setting := Resolved(spec.default, Default);
      }
      entries := entries + [(spec, setting)];
      assert catalog[..i + 1] == catalog[..i] + [spec];
    }
    assert catalog[..|catalog|] == catalog;
  }

  function ResolveAll(catalog: seq<Spec>, global: Document, project: Document, expanded: Document)
    : seq<(Spec, Resolved)>
  {
    seq(|catalog|, i requires 0 <= i < |catalog| => (catalog[i], ResolveSetting(global, project, expanded, catalog[i])))
  }

  /** What the merge says about a setting is what the layers document, or
      nothing: a value of the wrong shape on top hides what lies under it. */
  lemma MergedSetting(global: Document, project: Document, spec: Spec)
    ensures var merged := LookupSetting(Merged(global, project), spec);
      merged.Some? ==> Documented(global, project, spec).Some?
                       && Documented(global, project, spec).value.value == merged.value
  {
    MergedLookup(global, project, [spec.table, spec.key]);
  }

  /** Against the plain merge every setting is attributed to the layer that
      documents it, with that layer's value, and never to the environment. */
  lemma ProvenanceIsExact(global: Document, project: Document, spec: Spec)
    ensures ResolveSetting(global, project, Merged(global, project), spec) == Layered(global, project, spec)
    ensures ResolveSetting(global, project, Merged(global, project), spec).origin != Environment
  {
    MergedSetting(global, project, spec);
  }

  // ------------------------------------------------------------ which value is shown

  /** The document says this of the setting, in the shape the setting has: a flag, a
      number or words as they stand, and of an array its texts. */
  predicate Shown(document: Document, spec: Spec, value: Configured) {
    var found := Lookup(document, [spec.table, spec.key]);
    match spec.kind
    case BooleanKind => value.Flag? && found == Some(Boolean(value.flag))
    case IntegerKind => value.Number? && found == Some(Integer(value.number))
    case TextKind => value.Words? && found == Some(Text(value.text))
    case ChoiceKind => value.Words? && found == Some(Text(value.text))
    case TextListKind =>
      value.WordList? && found.Some? && found.value.Array? && TextsAmong(found.value.items, value.texts)
  }

  /** These are the texts among the items, and they stand in this order. */
  predicate TextsAmong(items: seq<Value>, texts: seq<string>)
    decreases |items|
  {
    if items == [] then texts == []
    else
      var last := items[|items| - 1];
      if last.Text? then
        texts != [] && texts[|texts| - 1] == last.text && TextsAmong(items[..|items| - 1], texts[..|texts| - 1])
      else TextsAmong(items[..|items| - 1], texts)
  }

  lemma {:induction false} TextsOneMore(items: seq<Value>, item: Value)
    ensures Texts(items + [item]) == Texts(items) + if item.Text? then [item.text] else []
  {
    if items == [] {
      assert [] + [item] == [item];
    } else {
      TextsOneMore(items[1..], item);
      assert (items + [item])[1..] == items[1..] + [item];
    }
  }

  lemma {:induction false} TextsIff(items: seq<Value>, texts: seq<string>)
    ensures Texts(items) == texts <==> TextsAmong(items, texts)
    decreases |items|
  {
    if items != [] {
      var last := items[|items| - 1];
      var rest := items[..|items| - 1];
      assert items == rest + [last];
      TextsOneMore(rest, last);
      if last.Text? {
        if texts != [] {
          TextsIff(rest, texts[..|texts| - 1]);
          assert texts == texts[..|texts| - 1] + [texts[|texts| - 1]];
        }
        assert (Texts(rest) + [last.text])[..|Texts(rest)|] == Texts(rest);
      } else {
        TextsIff(rest, texts);
      }
    }
  }

  lemma LookupIff(document: Document, spec: Spec, value: Configured)
    ensures LookupSetting(document, spec) == Some(value) <==> Shown(document, spec, value)
  {
    var found := Lookup(document, [spec.table, spec.key]);
    if found.Some? && found.value.Array? && value.WordList? {
      TextsIff(found.value.items, value.texts);
    }
  }

  /** The document says nothing of the setting, or nothing in its shape. */
  ghost predicate Silent(document: Document, spec: Spec) {
    forall value :: !Shown(document, spec, value)
  }

  lemma SilentIff(document: Document, spec: Spec)
    ensures Silent(document, spec) <==> LookupSetting(document, spec).None?
  {
    forall value
      ensures LookupSetting(document, spec) == Some(value) <==> Shown(document, spec, value)
    {
      LookupIff(document, spec, value);
    }
    if LookupSetting(document, spec).Some? {
      assert Shown(document, spec, LookupSetting(document, spec).value);
    }
  }

  /** Whose word a setting is, and what it says: the project's if it shows a value of
      the setting's shape, else the global document's if that does, else the
      catalog's. */
  lemma SettingIff(global: Document, project: Document, spec: Spec, value: Configured, origin: Origin)
    ensures ResolveSetting(global, project, Merged(global, project), spec) == Resolved(value, origin)
            <==> match origin
                 case Project => Shown(project, spec, value)
                 case Global => Silent(project, spec) && Shown(global, spec, value)
                 case Default => Silent(project, spec) && Silent(global, spec) && value == spec.default
                 case Environment => false
  {
    ProvenanceIsExact(global, project, spec);
    SilentIff(project, spec);
    SilentIff(global, spec);
    LookupIff(project, spec, value);
    LookupIff(global, spec, value);
  }
}
