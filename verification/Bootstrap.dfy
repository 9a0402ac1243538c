/**
  Resolving a configuration in agens-bootstrap: in full, and as much of it as a
  launch attached to a running daemon needs.

  Documents are given as trees. What validation, the MCP server list and the
  model parser accept is given as predicates, so each theorem holds whatever
  those say.
*/
module Bootstrap {
  import opened Wrappers
  import opened Documents
  import opened Settings
  import Environment
  import RuleExtraction

  type Path = string

  /** What reading and parsing a configuration file comes to. */
  datatype File = Unreadable | Missing | Malformed | Parsed(document: Document)

  datatype Host = Host(
    currentDirectory: Option<Path>,
    home: Option<Path>,
    environment: Environment.Variables,
    projectRoot: Option<Path>,
    files: Path -> File,
    characters: Environment.Characters,
    shell: Environment.Shell)

  datatype Checks = Checks(
    validates: Document -> bool,
    serversAccepted: (Document, seq<(Spec, Resolved)>) -> bool,
    modelAccepted: string -> bool)

  datatype Paths = Paths(globalConfig: Path, credentials: Path, projectConfig: Path)

  datatype Bootstrap = Bootstrap(
    paths: Paths,
    collapseThinking: bool,
    debug: bool,
    settings: seq<(Spec, Resolved)>,
    dataDirectory: Path,
    projectRoot: Option<Path>,
    permissionRules: seq<RuleExtraction.ConfigRule>)

  // ------------------------------------------------------------------- paths

  function Join(base: Path, part: Path): Path {
    base + "/" + part
  }

  function NonEmpty(environment: Environment.Variables, name: string): Option<string> {
    if name in environment && environment[name] != "" then Some(environment[name]) else None
  }

  function ConfigHome(home: Option<Path>, environment: Environment.Variables): Path {
    match NonEmpty(environment, "AGENS_CONFIG_HOME")
    case Some(path) => path
    case None =>
      match NonEmpty(environment, "XDG_CONFIG_HOME")
      case Some(path) => Join(path, "agens")
      case None => if home.Some? && home.value != "" then Join(home.value, ".config/agens") else ".agens"
  }

  function ResolvePaths(root: Path, home: Option<Path>, environment: Environment.Variables): Paths {
    var configHome := ConfigHome(home, environment);
    Paths(Join(configHome, "config.toml"), Join(configHome, "auth.json"), ProjectConfig(root))
  }

  function ProjectConfig(root: Path): Path {
    Join(root, ".agens/config.toml")
  }

  /** `data_directory`. */
  function DataDirectory(document: Document, home: Option<Path>, environment: Environment.Variables): Path {
    match Lookup(document, ["options", "data_dir"])
    case Some(Text(directory)) => if directory != "" then directory else DefaultData(home, environment)
    case _ => DefaultData(home, environment)
  }

  function DefaultData(home: Option<Path>, environment: Environment.Variables): Path {
    var base := match NonEmpty(environment, "XDG_DATA_HOME")
      case Some(directory) => directory
      case None => if home.Some? then Join(home.value, ".local/share") else ".local/share";
    Join(base, "agens")
  }

  // --------------------------------------------------------------- expansion

  /** Expands one text of one section in place; None is the failed expansion. */
  function ExpandField(host: Host, document: Document, section: string, field: string): Option<Document> {
    match Lookup(document, [section, field])
    case Some(Text(raw)) =>
      (match Environment.Expand(host.characters, raw, host.environment)
       case Ok(text) => Some(document[section := Table(document[section].entries[field := Text(text)])])
       case Err(_) => None)
    case _ => Some(document)
  }

  const EXPANDED_FIELDS: seq<(string, string)> := [("options", "data_dir"), ("provider", "base_url")]

  function ExpandDocument(host: Host, document: Document): Option<Document> {
    match ExpandField(host, document, "options", "data_dir")
    case None => None
    case Some(once) => ExpandField(host, once, "provider", "base_url")
  }

  /** `expand_document`: the loop over the two fields, editing as it goes. */
  method ExpandDocumentInPlace(host: Host, document: Document) returns (result: Option<Document>)
    ensures result == ExpandDocument(host, document)
  {
    var edited := document;
    for i := 0 to |EXPANDED_FIELDS|
      invariant i == 0 ==> edited == document
      invariant i == 1 ==> ExpandField(host, document, "options", "data_dir") == Some(edited)
      invariant i == 2 ==> ExpandDocument(host, document) == Some(edited)
    {
      var (section, field) := EXPANDED_FIELDS[i];
      assert (section, field) == if i == 0 then ("options", "data_dir") else ("provider", "base_url");
      ghost var expected := ExpandField(host, edited, section, field);
      LookupField(edited, section, field);
      if section in edited && edited[section].Table? && field in edited[section].entries {
        var value := edited[section].entries[field];
        if value.Text? {
          var expanded := Environment.ExpandEnvironment(host.characters, value.text, host.environment);
          if expanded.Err? {
            return None;
          }
          edited := edited[section := Table(edited[section].entries[field := Text(expanded.value)])];
        }
      }
      assert expected == Some(edited);
    }
    result := Some(edited);
  }

  /** A text with its variables and commands expanded; anything else as it is. */
  function ExpandText(host: Host, value: Value): Option<Value> {
    if !value.Text? then Some(value)
    else
      match Environment.ExpandCommands(host.characters, value.text, host.environment, host.shell)
      case Ok(text) => Some(Text(text))
      case Err(_) => None
  }

  function ExpandItems(host: Host, items: seq<Value>): Option<seq<Value>> {
    if items == [] then Some([])
    else
      var first := ExpandText(host, items[0]);
      var rest := ExpandItems(host, items[1..]);
      if first.None? || rest.None? then None else Some([first.value] + rest.value)
  }

  /** Every text of a table expanded; None if one cannot be. */
  function ExpandEntries(host: Host, entries: Document): Option<Document> {
    if forall key :: key in entries ==> ExpandText(host, entries[key]).Some? then
      Some(map key | key in entries :: ExpandText(host, entries[key]).value)
    else None
  }

  /** One field of an MCP server, by what the field holds. */
  function ExpandServerField(host: Host, field: string, value: Value): Option<Value> {
    if field in {"command", "cwd", "url"} then ExpandText(host, value)
    else if field in {"env", "headers"} && value.Table? then
      (match ExpandEntries(host, value.entries)
       case Some(entries) => Some(Table(entries))
       case None => None)
    else if field == "args" && value.Array? then
      (match ExpandItems(host, value.items)
       case Some(items) => Some(Array(items))
       case None => None)
    else Some(value)
  }

  /** A disabled server, or what is no server at all, is left alone. */
  function ExpandServer(host: Host, server: Value): Option<Value> {
    if !server.Table? then Some(server)
    else if "disabled" in server.entries && server.entries["disabled"] == Boolean(true) then Some(server)
    else if forall field :: field in server.entries ==> ExpandServerField(host, field, server.entries[field]).Some? then
      Some(Table(map field | field in server.entries :: ExpandServerField(host, field, server.entries[field]).value))
    else None
  }

  /** `expand_global_mcp`. */
  function ExpandGlobalMcp(host: Host, document: Document): Option<Document> {
    if "mcp" !in document || !document["mcp"].Table? then Some(document)
    else
      var servers := document["mcp"].entries;
      if forall name :: name in servers ==> ExpandServer(host, servers[name]).Some? then
        Some(document["mcp" := Table(map name | name in servers :: ExpandServer(host, servers[name]).value)])
      else None
  }

  // ---------------------------------------------------------- the two resolvers

  /** `load_toml`. */
  function LoadToml(checks: Checks, file: File): Option<Document> {
    match file
    case Unreadable => None
    case Missing => Some(map[])
    case Malformed => None
    case Parsed(document) => if checks.validates(document) then Some(document) else None
  }

  const ATTACHED_SECTIONS: seq<string> := ["options", "ui"]

  function Pruned(document: Document): Document {
    map section | section in document && section in ATTACHED_SECTIONS :: document[section]
  }

  /** The loop of `load_attached_sections`, which copies the sections over. */
  method PruneSections(document: Document) returns (pruned: Document)
    ensures pruned == Pruned(document)
  {
    pruned := map[];
    for i := 0 to |ATTACHED_SECTIONS|
      invariant pruned == map s | s in document && s in ATTACHED_SECTIONS[..i] :: document[s]
    {
      var section := ATTACHED_SECTIONS[i];
      if section in document {
        pruned := pruned[section := document[section]];
      }
    }
  }

  /** `load_attached_sections`. */
  function LoadAttachedSections(file: File): Option<Document> {
    match file
    case Unreadable => None
    case Missing => Some(map[])
    case Malformed => None
    case Parsed(document) => Some(Pruned(document))
  }

  /** `ResolvedSettings::boolean`: the first entry under the path, read as a flag. */
  function BooleanSetting(settings: seq<(Spec, Resolved)>, table: string, key: string): Option<bool> {
    if settings == [] then None
    else if settings[0].0.table == table && settings[0].0.key == key then
      var value := settings[0].1.value;
      if value.Flag? then Some(value.flag) else None
    else BooleanSetting(settings[1..], table, key)
  }

  function FlagOr(flag: Option<bool>, otherwise: bool): bool {
    if flag.Some? then flag.value else otherwise
  }

  function WordsSetting(settings: seq<(Spec, Resolved)>, table: string, key: string): Option<string> {
    if settings == [] then None
    else if settings[0].0.table == table && settings[0].0.key == key then
      var value := settings[0].1.value;
      if value.Words? then Some(value.text) else None
    else WordsSetting(settings[1..], table, key)
  }

  function Assemble(
    host: Host, paths: Paths, document: Document, settings: seq<(Spec, Resolved)>,
    rules: seq<RuleExtraction.ConfigRule>): Bootstrap
  {
    Bootstrap(
      paths,
      FlagOr(BooleanSetting(settings, "ui", "collapse_thinking"), false),
      FlagOr(BooleanSetting(settings, "options", "debug"), true),
      settings,
      DataDirectory(document, host.home, host.environment),
      host.projectRoot,
      rules)
  }

  function ConfigRoot(host: Host): Path
    requires host.currentDirectory.Some?
  {
    if host.projectRoot.Some? then host.projectRoot.value else host.currentDirectory.value
  }

  /** `resolve`, once both documents are read. */
  function ResolveDocuments(
    host: Host, checks: Checks, catalog: seq<Spec>, paths: Paths, global: Document, project: Document)
    : Option<Bootstrap>
  {
    if "mcp" in project then None
    else
      var rules := RuleExtraction.ExtractRules(checks.validates, global, project);
      var expandedGlobal := ExpandGlobalMcp(host, global);
      if rules.None? || expandedGlobal.None? then None
      else
        var document := ExpandDocument(host, Merged(expandedGlobal.value, project));
        if document.None? then None
        else
          var settings := ResolveAll(catalog, global, project, document.value);
          var model := WordsSetting(settings, "provider", "model");
          if !checks.serversAccepted(document.value, settings)
             || host.files(paths.credentials).Unreadable?
             || (model.Some? && !checks.modelAccepted(model.value))
          then None
          else Some(Assemble(host, paths, document.value, settings, rules.value))
  }

  /** `resolve`. */
  function Resolve(host: Host, checks: Checks, catalog: seq<Spec>): Option<Bootstrap> {
    if host.currentDirectory.None? then None
    else
      var paths := ResolvePaths(ConfigRoot(host), host.home, host.environment);
      var global := LoadToml(checks, host.files(paths.globalConfig));
      var project := LoadToml(checks, host.files(paths.projectConfig));
      if global.None? || project.None? then None
      else ResolveDocuments(host, checks, catalog, paths, global.value, project.value)
  }

  /** `resolve_attached`. */
  function ResolveAttached(host: Host, catalog: seq<Spec>): Option<Bootstrap> {
    if host.currentDirectory.None? then None
    else
      var paths := ResolvePaths(ConfigRoot(host), host.home, host.environment);
      var global := LoadAttachedSections(host.files(paths.globalConfig));
      var project := LoadAttachedSections(host.files(paths.projectConfig));
      if global.None? || project.None? then None
      else
        var document := ExpandDocument(host, Merged(global.value, project.value));
        if document.None? then None
        else
          var settings := ResolveAll(catalog, global.value, project.value, document.value);
          Some(Assemble(host, paths, document.value, settings, []))
  }

  // ------------------------------------------------------------ provenance

  predicate IsExpanded(spec: Spec) {
    (spec.table == "options" && spec.key == "data_dir") || (spec.table == "provider" && spec.key == "base_url")
  }

  lemma ExpandFieldLookup(host: Host, document: Document, section: string, field: string, table: string, key: string)
    requires ExpandField(host, document, section, field).Some?
    ensures var edited := ExpandField(host, document, section, field).value;
      Lookup(edited, [table, key]) ==
        match Lookup(document, [table, key])
        case Some(Text(raw)) =>
          if table == section && key == field then
            Some(Text(Environment.Expand(host.characters, raw, host.environment).value))
          else Some(Text(raw))
        case other => other
  {
    LookupField(document, table, key);
    LookupField(document, section, field);
    LookupField(ExpandField(host, document, section, field).value, table, key);
  }

  /** What expansion does to every field: the two texts are expanded, with
      success, and everything else is as it was. */
  lemma ExpandedLookup(host: Host, document: Document, spec: Spec)
    requires ExpandDocument(host, document).Some?
    ensures var after := Lookup(ExpandDocument(host, document).value, [spec.table, spec.key]);
      match (IsExpanded(spec), Lookup(document, [spec.table, spec.key]))
      case (true, Some(Text(raw))) =>
        var text := Environment.Expand(host.characters, raw, host.environment);
        text.Ok? && after == Some(Text(text.value))
      case (_, before) => after == before
  {
    var once := ExpandField(host, document, "options", "data_dir").value;
    ExpandFieldLookup(host, document, "options", "data_dir", spec.table, spec.key);
    ExpandFieldLookup(host, once, "provider", "base_url", spec.table, spec.key);
  }

  /** After expansion a setting is the environment's exactly when it is one of
      the two expanded texts and expanding changed it; its value is then the
      expanded text, and every other setting is its layer's as before. */
  lemma ExpansionProvenance(host: Host, global: Document, project: Document, spec: Spec)
    requires ExpandDocument(host, Merged(global, project)).Some?
    ensures
      var expanded := ExpandDocument(host, Merged(global, project)).value;
      var setting := ResolveSetting(global, project, expanded, spec);
      match (IsExpanded(spec), LookupSetting(Merged(global, project), spec))
      case (true, Some(Words(raw))) =>
        var text := Environment.Expand(host.characters, raw, host.environment);
        && text.Ok?
        && setting.value == Words(text.value)
        && setting.origin == if text.value == raw then Layered(global, project, spec).origin else Environment
      case _ => setting == Layered(global, project, spec) && setting.origin != Environment
  {
    ExpandedLookup(host, Merged(global, project), spec);
    MergedSetting(global, project, spec);
  }

  // ------------------------------------------------- attached against full

  lemma ExpandKeptSection(host: Host, document: Document, section: string, field: string)
    requires section in ATTACHED_SECTIONS && ExpandField(host, document, section, field).Some?
    ensures ExpandField(host, Pruned(document), section, field)
            == Some(Pruned(ExpandField(host, document, section, field).value))
  {
    PrunedField(document, section, field);
    LookupField(document, section, field);
    var edited := ExpandField(host, document, section, field).value;
    if section in document {
      assert Pruned(edited) == Pruned(document)[section := edited[section]];
    }
  }

  lemma ExpandDroppedSection(host: Host, document: Document, section: string, field: string)
    requires section !in ATTACHED_SECTIONS && ExpandField(host, document, section, field).Some?
    ensures ExpandField(host, Pruned(document), section, field) == Some(Pruned(document))
    ensures Pruned(ExpandField(host, document, section, field).value) == Pruned(document)
  {
    LookupField(document, section, field);
    LookupField(Pruned(document), section, field);
  }

  lemma PruningKeeps(document: Document, key: string)
    ensures key in Pruned(document) <==> key in document && key in ATTACHED_SECTIONS
    ensures key in Pruned(document) ==> Pruned(document)[key] == document[key]
  {
  }

  predicate SameAt(left: Document, right: Document, key: string) {
    (key in left <==> key in right) && (key in left ==> left[key] == right[key])
  }

  lemma MergedSameAt(global: Document, project: Document, global': Document, project': Document, key: string)
    requires SameAt(global, global', key) && SameAt(project, project', key)
    ensures SameAt(Merged(global, project), Merged(global', project'), key)
  {
  }

  lemma PruningMerges(global: Document, project: Document)
    ensures Pruned(Merged(global, project)) == Merged(Pruned(global), Pruned(project))
  {
    forall key
      ensures SameAt(Pruned(Merged(global, project)), Merged(Pruned(global), Pruned(project)), key)
    {
      PruningMergesAt(global, project, key);
    }
    SameEverywhere(Pruned(Merged(global, project)), Merged(Pruned(global), Pruned(project)));
  }

  lemma SameEverywhere(left: Document, right: Document)
    requires forall key :: SameAt(left, right, key)
    ensures left == right
  {
    assert forall key :: SameAt(left, right, key) ==> (key in left <==> key in right);
  }

  lemma PruningMergesAt(global: Document, project: Document, key: string)
    ensures SameAt(Pruned(Merged(global, project)), Merged(Pruned(global), Pruned(project)), key)
  {
    PruningKeeps(global, key);
    PruningKeeps(project, key);
    PruningKeeps(Merged(global, project), key);
    if key in ATTACHED_SECTIONS {
      MergedSameAt(global, project, Pruned(global), Pruned(project), key);
    }
  }

  /** Pruning to the attached sections commutes with the merge and with the
      expansion; an expansion that succeeds on the whole succeeds on the part. */
  lemma PruningCommutes(host: Host, global: Document, project: Document)
    ensures Pruned(Merged(global, project)) == Merged(Pruned(global), Pruned(project))
    ensures var whole := ExpandDocument(host, Merged(global, project));
      whole.Some? ==>
        ExpandDocument(host, Merged(Pruned(global), Pruned(project))) == Some(Pruned(whole.value))
  {
    PruningMerges(global, project);
    PruningExpands(host, Merged(global, project));
  }

  lemma PruningExpands(host: Host, document: Document)
    ensures ExpandDocument(host, document).Some? ==>
              ExpandDocument(host, Pruned(document)) == Some(Pruned(ExpandDocument(host, document).value))
  {
    var once := ExpandField(host, document, "options", "data_dir");
    if once.Some? {
      ExpandKeptSection(host, document, "options", "data_dir");
      if ExpandField(host, once.value, "provider", "base_url").Some? {
        ExpandDroppedSection(host, once.value, "provider", "base_url");
      }
    }
  }

  lemma PrunedField(document: Document, section: string, field: string)
    requires section in ATTACHED_SECTIONS
    ensures Lookup(Pruned(document), [section, field]) == Lookup(document, [section, field])
  {
    LookupField(document, section, field);
    LookupField(Pruned(document), section, field);
  }

  lemma PruningIgnoresMcp(host: Host, document: Document)
    requires ExpandGlobalMcp(host, document).Some?
    ensures Pruned(ExpandGlobalMcp(host, document).value) == Pruned(document)
  {
  }

  lemma PrunedSetting(global: Document, project: Document, document: Document, spec: Spec)
    requires spec.table in ATTACHED_SECTIONS
    ensures ResolveSetting(Pruned(global), Pruned(project), Pruned(document), spec)
            == ResolveSetting(global, project, document, spec)
  {
    PrunedField(global, spec.table, spec.key);
    PrunedField(project, spec.table, spec.key);
    PrunedField(document, spec.table, spec.key);
  }

  lemma {:induction false} PrunedFlag(catalog: seq<Spec>, global: Document, project: Document, document: Document,
                                      table: string, key: string)
    requires table in ATTACHED_SECTIONS
    ensures BooleanSetting(ResolveAll(catalog, Pruned(global), Pruned(project), Pruned(document)), table, key)
            == BooleanSetting(ResolveAll(catalog, global, project, document), table, key)
  {
    if catalog != [] {
      PrunedFlag(catalog[1..], global, project, document, table, key);
      assert ResolveAll(catalog, global, project, document)[1..] == ResolveAll(catalog[1..], global, project, document);
      assert ResolveAll(catalog, Pruned(global), Pruned(project), Pruned(document))[1..]
             == ResolveAll(catalog[1..], Pruned(global), Pruned(project), Pruned(document));
      if catalog[0].table == table {
        PrunedSetting(global, project, document, catalog[0]);
      }
    }
  }

  /** The merge and expansion see the MCP-expanded global document; the settings
      see it as documented. Both prune to the same. */
  lemma AttachedDocument(host: Host, global: Document, project: Document)
    requires ExpandGlobalMcp(host, global).Some?
    requires ExpandDocument(host, Merged(ExpandGlobalMcp(host, global).value, project)).Some?
    ensures ExpandDocument(host, Merged(Pruned(global), Pruned(project)))
            == Some(Pruned(ExpandDocument(host, Merged(ExpandGlobalMcp(host, global).value, project)).value))
  {
    PruningIgnoresMcp(host, global);
    PruningCommutes(host, ExpandGlobalMcp(host, global).value, project);
  }

  /** What a successful full resolution is made of. */
  lemma ResolveParts(host: Host, checks: Checks, catalog: seq<Spec>)
      returns (paths: Paths, global: Document, project: Document, document: Document,
               rules: seq<RuleExtraction.ConfigRule>)
    requires Resolve(host, checks, catalog).Some?
    ensures host.currentDirectory.Some? && paths == ResolvePaths(ConfigRoot(host), host.home, host.environment)
    ensures LoadToml(checks, host.files(paths.globalConfig)) == Some(global)
    ensures LoadToml(checks, host.files(paths.projectConfig)) == Some(project)
    ensures RuleExtraction.ExtractRules(checks.validates, global, project) == Some(rules)
    ensures ExpandGlobalMcp(host, global).Some?
    ensures ExpandDocument(host, Merged(ExpandGlobalMcp(host, global).value, project)) == Some(document)
    ensures Resolve(host, checks, catalog)
            == Some(Assemble(host, paths, document, ResolveAll(catalog, global, project, document), rules))
  {
    paths := ResolvePaths(ConfigRoot(host), host.home, host.environment);
    global := LoadToml(checks, host.files(paths.globalConfig)).value;
    project := LoadToml(checks, host.files(paths.projectConfig)).value;
    rules := RuleExtraction.ExtractRules(checks.validates, global, project).value;
    document := ExpandDocument(host, Merged(ExpandGlobalMcp(host, global).value, project)).value;
  }

  lemma LoadedPruned(checks: Checks, file: File)
    requires LoadToml(checks, file).Some?
    ensures LoadAttachedSections(file) == Some(Pruned(LoadToml(checks, file).value))
  {
    assert Pruned(map[]) == map[];
  }

  /** Whenever the full resolution succeeds, the attached one does, and agrees on
      everything an attached launch uses. */
  lemma AttachedAgrees(host: Host, checks: Checks, catalog: seq<Spec>)
    requires Resolve(host, checks, catalog).Some?
    ensures ResolveAttached(host, catalog).Some?
    ensures var full := Resolve(host, checks, catalog).value; var attached := ResolveAttached(host, catalog).value;
      && attached.dataDirectory == full.dataDirectory
      && attached.projectRoot == full.projectRoot
      && attached.paths == full.paths
      && attached.collapseThinking == full.collapseThinking
      && attached.debug == full.debug
  {
    var paths, global, project, document, rules := ResolveParts(host, checks, catalog);
    LoadedPruned(checks, host.files(paths.globalConfig));
    LoadedPruned(checks, host.files(paths.projectConfig));
    AttachedDocument(host, global, project);
    var settings := ResolveAll(catalog, Pruned(global), Pruned(project), Pruned(document));
    assert ResolveAttached(host, catalog) == Some(Assemble(host, paths, Pruned(document), settings, []));
    PrunedFlag(catalog, global, project, document, "ui", "collapse_thinking");
    PrunedFlag(catalog, global, project, document, "options", "debug");
    PrunedField(document, "options", "data_dir");
  }

  /** What an attached launch can see of a file. */
  function AttachedView(file: File): File {
    if file.Parsed? then Parsed(Pruned(file.document)) else file
  }

  lemma ExpandReads(host: Host, other: Host, document: Document)
    requires other == host.(files := other.files)
    ensures ExpandDocument(other, document) == ExpandDocument(host, document)
  {
  }

  /** Without a provider section, expanding is expanding the data directory. */
  lemma ExpandsAttached(host: Host, document: Document)
    requires "provider" !in document
    ensures ExpandDocument(host, document).Some? <==>
      match Lookup(document, ["options", "data_dir"])
      case Some(Text(raw)) => Environment.Expand(host.characters, raw, host.environment).Ok?
      case _ => true
  {
    var once := ExpandField(host, document, "options", "data_dir");
    LookupField(document, "options", "data_dir");
    if once.Some? {
      LookupField(once.value, "provider", "base_url");
    }
  }

  lemma AttachedSucceedsIff(host: Host, catalog: seq<Spec>)
    requires host.currentDirectory.Some?
    ensures var paths := ResolvePaths(ConfigRoot(host), host.home, host.environment);
      var global := LoadAttachedSections(host.files(paths.globalConfig));
      var project := LoadAttachedSections(host.files(paths.projectConfig));
      ResolveAttached(host, catalog).Some? <==>
        && global.Some? && project.Some?
        && match Lookup(Merged(global.value, project.value), ["options", "data_dir"])
           case Some(Text(raw)) => Environment.Expand(host.characters, raw, host.environment).Ok?
           case _ => true
  {
    var paths := ResolvePaths(ConfigRoot(host), host.home, host.environment);
    var global := LoadAttachedSections(host.files(paths.globalConfig));
    var project := LoadAttachedSections(host.files(paths.projectConfig));
    if global.Some? && project.Some? {
      ExpandsAttached(host, Merged(global.value, project.value));
    }
  }

  /** The attached resolution succeeds exactly when both files can be read and
      parsed and the data directory's text expands, and it depends on nothing in
      them but the two sections: files that look the same through those resolve
      to the same. */
  lemma AttachedDependsOnSectionsOnly(host: Host, files: Path -> File, catalog: seq<Spec>)
    requires forall path :: AttachedView(files(path)) == AttachedView(host.files(path))
    ensures ResolveAttached(host.(files := files), catalog) == ResolveAttached(host, catalog)
    ensures host.currentDirectory.Some? ==>
      var paths := ResolvePaths(ConfigRoot(host), host.home, host.environment);
      var global := LoadAttachedSections(host.files(paths.globalConfig));
      var project := LoadAttachedSections(host.files(paths.projectConfig));
      ResolveAttached(host, catalog).Some? <==>
        && global.Some? && project.Some?
        && match Lookup(Merged(global.value, project.value), ["options", "data_dir"])
           case Some(Text(raw)) => Environment.Expand(host.characters, raw, host.environment).Ok?
           case _ => true
  {
    if host.currentDirectory.Some? {
      AttachedSucceedsIff(host, catalog);
      var other := host.(files := files);
      var paths := ResolvePaths(ConfigRoot(host), host.home, host.environment);
      assert ResolvePaths(ConfigRoot(other), other.home, other.environment) == paths;
      SameView(host.files(paths.globalConfig), files(paths.globalConfig));
      SameView(host.files(paths.projectConfig), files(paths.projectConfig));
      var global := LoadAttachedSections(host.files(paths.globalConfig));
      var project := LoadAttachedSections(host.files(paths.projectConfig));
      if global.Some? && project.Some? {
        ExpandReads(host, other, Merged(global.value, project.value));
      }
    }
  }

  lemma SameView(left: File, right: File)
    requires AttachedView(left) == AttachedView(right)
    ensures LoadAttachedSections(left) == LoadAttachedSections(right)
  {
  }

  // --------------------------------------------------- with the shipped catalog

  const DEBUG := Spec("options", "debug", BooleanKind, Flag(true))
  const COLLAPSE_THINKING := Spec("ui", "collapse_thinking", BooleanKind, Flag(false))

  /** A path names the first row that has it. */
  lemma {:induction false} BooleanAt(settings: seq<(Spec, Resolved)>, i: nat)
    requires i < |settings|
    requires forall j :: 0 <= j < i ==>
               settings[j].0.table != settings[i].0.table || settings[j].0.key != settings[i].0.key
    ensures BooleanSetting(settings, settings[i].0.table, settings[i].0.key)
            == if settings[i].1.value.Flag? then Some(settings[i].1.value.flag) else None
    decreases i
  {
    if i > 0 {
      BooleanAt(settings[1..], i - 1);
    }
  }

  lemma CatalogRows()
    ensures |SETTINGS| == 30 && SETTINGS[0] == DEBUG && SETTINGS[12] == COLLAPSE_THINKING
    ensures forall j :: 0 <= j < 12 ==> SETTINGS[j].table != "ui"
  {
    assert |"ui"| == 2;
    assert forall j :: 0 <= j < 12 ==> |SETTINGS[j].table| > 2;
  }

  lemma LayeredFlag(global: Document, project: Document, spec: Spec)
    requires spec.kind == BooleanKind && spec.default.Flag?
    ensures Layered(global, project, spec).value.Flag?
  {
  }

  /** An attached launch renders as the project's two sections say, else the global
      ones, else the catalog: no other layer and no expansion has a part in it. */
  lemma AttachedReadsItsLayers(host: Host)
    requires ResolveAttached(host, SETTINGS).Some?
    ensures host.currentDirectory.Some?
    ensures var paths := ResolvePaths(ConfigRoot(host), host.home, host.environment);
      var attached := ResolveAttached(host, SETTINGS).value;
      var global := LoadAttachedSections(host.files(paths.globalConfig));
      var project := LoadAttachedSections(host.files(paths.projectConfig));
      && global.Some? && project.Some?
      && Flag(attached.debug) == Layered(global.value, project.value, DEBUG).value
      && Flag(attached.collapseThinking) == Layered(global.value, project.value, COLLAPSE_THINKING).value
  {
    var paths := ResolvePaths(ConfigRoot(host), host.home, host.environment);
    var global := LoadAttachedSections(host.files(paths.globalConfig)).value;
    var project := LoadAttachedSections(host.files(paths.projectConfig)).value;
    var document := ExpandDocument(host, Merged(global, project)).value;
    var settings := ResolveAll(SETTINGS, global, project, document);
    CatalogRows();
    BooleanAt(settings, 0);
    BooleanAt(settings, 12);
    ExpansionProvenance(host, global, project, DEBUG);
    ExpansionProvenance(host, global, project, COLLAPSE_THINKING);
    LayeredFlag(global, project, DEBUG);
    LayeredFlag(global, project, COLLAPSE_THINKING);
  }

  lemma {:induction false} NoSuchRow(settings: seq<(Spec, Resolved)>, table: string, key: string)
    requires forall i :: 0 <= i < |settings| ==> settings[i].0.table != table || settings[i].0.key != key
    ensures BooleanSetting(settings, table, key).None?
  {
    if settings != [] {
      assert forall i :: 0 <= i < |settings[1..]| ==> settings[1..][i] == settings[i + 1];
      NoSuchRow(settings[1..], table, key);
    }
  }

  /** Under a catalog without the two rows thoughts are not collapsed, and the
      session is debugged. */
  lemma FlagsWithoutRows(host: Host, catalog: seq<Spec>)
    requires ResolveAttached(host, catalog).Some?
    ensures (forall i :: 0 <= i < |catalog| ==> catalog[i].table != "ui" || catalog[i].key != "collapse_thinking")
            ==> !ResolveAttached(host, catalog).value.collapseThinking
    ensures (forall i :: 0 <= i < |catalog| ==> catalog[i].table != "options" || catalog[i].key != "debug")
            ==> ResolveAttached(host, catalog).value.debug
  {
    var settings := ResolveAttached(host, catalog).value.settings;
    assert |settings| == |catalog| && forall i :: 0 <= i < |catalog| ==> settings[i].0 == catalog[i];
    if forall i :: 0 <= i < |catalog| ==> catalog[i].table != "ui" || catalog[i].key != "collapse_thinking" {
      NoSuchRow(settings, "ui", "collapse_thinking");
    }
    if forall i :: 0 <= i < |catalog| ==> catalog[i].table != "options" || catalog[i].key != "debug" {
      NoSuchRow(settings, "options", "debug");
    }
  }

  // ------------------------------------------------- where things are looked for

  /** Under a set XDG_DATA_HOME, else under the home, else where the process is. */
  predicate DefaultDirectory(directory: Path, host: Host) {
    directory ==
      if "XDG_DATA_HOME" in host.environment && host.environment["XDG_DATA_HOME"] != "" then
        host.environment["XDG_DATA_HOME"] + "/agens"
      else if host.home.Some? then host.home.value + "/.local/share/agens"
      else ".local/share/agens"
  }

  /** A documented, non-empty directory once expanded, else the default one. */
  predicate DirectoryOf(directory: Path, host: Host, merged: Document) {
    match Lookup(merged, ["options", "data_dir"])
    case Some(Text(raw)) =>
      var text := Environment.Expand(host.characters, raw, host.environment);
      && text.Ok?
      && (if text.value != "" then directory == text.value else DefaultDirectory(directory, host))
    case _ => DefaultDirectory(directory, host)
  }

  const DATA_DIR := Spec("options", "data_dir", TextKind, Absent)

  lemma DefaultDataIs(host: Host)
    ensures DefaultDirectory(DefaultData(host.home, host.environment), host)
  {
    var data := DefaultData(host.home, host.environment);
    if "XDG_DATA_HOME" in host.environment && host.environment["XDG_DATA_HOME"] != "" {
      assert data == host.environment["XDG_DATA_HOME"] + "/agens";
    } else if host.home.Some? {
      assert data == host.home.value + "/.local/share/agens";
    } else {
      assert data == ".local/share/agens";
    }
  }

  lemma ExpandedDirectory(host: Host, merged: Document)
    requires ExpandDocument(host, merged).Some?
    ensures DirectoryOf(DataDirectory(ExpandDocument(host, merged).value, host.home, host.environment), host, merged)
  {
    ExpandedLookup(host, merged, DATA_DIR);
    DefaultDataIs(host);
  }

  /** An attached launch finds the daemon where the two files say, else at the
      default place. */
  lemma AttachedDirectory(host: Host, catalog: seq<Spec>)
    requires ResolveAttached(host, catalog).Some?
    ensures var attached := ResolveAttached(host, catalog).value;
      var global := LoadAttachedSections(host.files(attached.paths.globalConfig));
      var project := LoadAttachedSections(host.files(attached.paths.projectConfig));
      && global.Some? && project.Some?
      && DirectoryOf(attached.dataDirectory, host, Merged(global.value, project.value))
  {
    var paths := ResolvePaths(ConfigRoot(host), host.home, host.environment);
    var global := LoadAttachedSections(host.files(paths.globalConfig)).value;
    var project := LoadAttachedSections(host.files(paths.projectConfig)).value;
    ExpandedDirectory(host, Merged(global, project));
  }

  /** And so does the full resolution. */
  lemma FullDirectory(host: Host, checks: Checks, catalog: seq<Spec>)
    requires Resolve(host, checks, catalog).Some?
    ensures var full := Resolve(host, checks, catalog).value;
      var global := LoadToml(checks, host.files(full.paths.globalConfig));
      var project := LoadToml(checks, host.files(full.paths.projectConfig));
      && global.Some? && project.Some?
      && DirectoryOf(full.dataDirectory, host, Merged(global.value, project.value))
  {
    var paths, global, project, document, rules := ResolveParts(host, checks, catalog);
    var expanded := ExpandGlobalMcp(host, global).value;
    ExpandedDirectory(host, Merged(expanded, project));
    McpKeepsSections(host, global, project, "options", "data_dir");
  }

  /** Expanding the MCP section touches no other. */
  lemma McpKeepsSections(host: Host, global: Document, project: Document, section: string, field: string)
    requires ExpandGlobalMcp(host, global).Some? && section != "mcp"
    ensures Lookup(Merged(ExpandGlobalMcp(host, global).value, project), [section, field])
            == Lookup(Merged(global, project), [section, field])
  {
    LookupField(Merged(ExpandGlobalMcp(host, global).value, project), section, field);
    LookupField(Merged(global, project), section, field);
  }

  /** AGENS_CONFIG_HOME, else agens in XDG_CONFIG_HOME, else the home, else where the
      process is. */
  function StandardHome(host: Host): Path {
    var env := host.environment;
    if "AGENS_CONFIG_HOME" in env && env["AGENS_CONFIG_HOME"] != "" then env["AGENS_CONFIG_HOME"]
    else if "XDG_CONFIG_HOME" in env && env["XDG_CONFIG_HOME"] != "" then env["XDG_CONFIG_HOME"] + "/agens"
    else if host.home.Some? && host.home.value != "" then host.home.value + "/.config/agens"
    else ".agens"
  }

  /** The global files lie there, the project's under the project root, or the
      directory the process is in. */
  predicate StandardPaths(paths: Paths, host: Host) {
    && paths.globalConfig == StandardHome(host) + "/config.toml"
    && paths.credentials == StandardHome(host) + "/auth.json"
    && host.currentDirectory.Some?
    && paths.projectConfig
       == (if host.projectRoot.Some? then host.projectRoot.value else host.currentDirectory.value)
          + "/.agens/config.toml"
  }

  lemma Joins(base: Path)
    ensures Join(base, "agens") == base + "/agens"
    ensures Join(base, ".config/agens") == base + "/.config/agens"
    ensures Join(base, "config.toml") == base + "/config.toml"
    ensures Join(base, "auth.json") == base + "/auth.json"
    ensures Join(base, ".agens/config.toml") == base + "/.agens/config.toml"
  {
    assert base + "/" + "agens" == base + "/agens";
    assert base + "/" + ".config/agens" == base + "/.config/agens";
    assert base + "/" + "config.toml" == base + "/config.toml";
    assert base + "/" + "auth.json" == base + "/auth.json";
    assert base + "/" + ".agens/config.toml" == base + "/.agens/config.toml";
  }

  lemma ConfigHomeIs(host: Host)
    ensures ConfigHome(host.home, host.environment) == StandardHome(host)
  {
    if "XDG_CONFIG_HOME" in host.environment {
      Joins(host.environment["XDG_CONFIG_HOME"]);
    }
    if host.home.Some? {
      Joins(host.home.value);
    }
  }

  lemma PathsAreStandard(host: Host)
    requires host.currentDirectory.Some?
    ensures StandardPaths(ResolvePaths(ConfigRoot(host), host.home, host.environment), host)
  {
    ConfigHomeIs(host);
    Joins(ConfigHome(host.home, host.environment));
    Joins(ConfigRoot(host));
  }

  lemma BothLookInStandardPaths(host: Host, checks: Checks, catalog: seq<Spec>)
    ensures Resolve(host, checks, catalog).Some? ==>
      var full := Resolve(host, checks, catalog).value;
      StandardPaths(full.paths, host) && full.projectRoot == host.projectRoot
    ensures ResolveAttached(host, catalog).Some? ==>
      var attached := ResolveAttached(host, catalog).value;
      StandardPaths(attached.paths, host) && attached.projectRoot == host.projectRoot
  {
    if host.currentDirectory.Some? {
      PathsAreStandard(host);
    }
  }

  // ---------------------------------------------- what an attached resolution takes

  /** The sections a file attaches with: nothing, if there is no file, and of a
      document, valid or not, `options` and `ui`. */
  ghost predicate SectionsOf(file: File, sections: Document) {
    || (file == Missing && sections == map[])
    || (file.Parsed?
        && (forall section :: section in sections <==>
              section in file.document && (section == "options" || section == "ui"))
        && (forall section :: section in sections ==> sections[section] == file.document[section]))
  }

  lemma AttachedLoadsIff(file: File, sections: Document)
    ensures LoadAttachedSections(file) == Some(sections) <==> SectionsOf(file, sections)
  {
    assert forall section :: section in ATTACHED_SECTIONS <==> section == "options" || section == "ui";
    if file.Parsed? && SectionsOf(file, sections) {
      assert sections == Pruned(file.document);
    }
  }

  ghost predicate Attachable(host: Host, paths: Paths, global: Document, project: Document) {
    && SectionsOf(host.files(paths.globalConfig), global)
    && SectionsOf(host.files(paths.projectConfig), project)
    && match Lookup(Merged(global, project), ["options", "data_dir"])
       case Some(Text(raw)) => Environment.Expand(host.characters, raw, host.environment).Ok?
       case _ => true
  }

  /** An attached launch resolves exactly if it runs somewhere, neither file is
      unreadable or malformed, and the data directory they give can be expanded. */
  lemma AttachedResolvesIff(host: Host, catalog: seq<Spec>)
    ensures ResolveAttached(host, catalog).Some?
            <==> host.currentDirectory.Some?
                 && var paths := ResolvePaths(ConfigRoot(host), host.home, host.environment);
                    exists global, project :: Attachable(host, paths, global, project)
  {
    if host.currentDirectory.Some? {
      var paths := ResolvePaths(ConfigRoot(host), host.home, host.environment);
      AttachedSucceedsIff(host, catalog);
      forall sections
        ensures LoadAttachedSections(host.files(paths.globalConfig)) == Some(sections)
                <==> SectionsOf(host.files(paths.globalConfig), sections)
        ensures LoadAttachedSections(host.files(paths.projectConfig)) == Some(sections)
                <==> SectionsOf(host.files(paths.projectConfig), sections)
      {
        AttachedLoadsIff(host.files(paths.globalConfig), sections);
        AttachedLoadsIff(host.files(paths.projectConfig), sections);
      }
      if ResolveAttached(host, catalog).Some? {
        var global := LoadAttachedSections(host.files(paths.globalConfig)).value;
        var project := LoadAttachedSections(host.files(paths.projectConfig)).value;
        assert Attachable(host, paths, global, project);
      }
    }
  }

  // -------------------------------------------------- what the full resolution takes

  /** The document a configuration file stands for: nothing, if there is no file. */
  predicate StandsFor(file: File, checks: Checks, document: Document) {
    || (file == Missing && document == map[])
    || (file == Parsed(document) && checks.validates(document))
  }

  lemma LoadsIff(checks: Checks, file: File, document: Document)
    ensures LoadToml(checks, file) == Some(document) <==> StandsFor(file, checks, document)
  {
  }

  const MODEL := Spec("provider", "model", TextKind, Absent)

  /** The configured model, by the layers. */
  function ModelOf(global: Document, project: Document): Option<string> {
    match Layered(global, project, MODEL).value
    case Words(text) => Some(text)
    case _ => None
  }

  lemma WordsAt(settings: seq<(Spec, Resolved)>, i: nat)
    requires i < |settings|
    requires forall j :: 0 <= j < i ==>
               settings[j].0.table != settings[i].0.table || settings[j].0.key != settings[i].0.key
    ensures WordsSetting(settings, settings[i].0.table, settings[i].0.key)
            == if settings[i].1.value.Words? then Some(settings[i].1.value.text) else None
    decreases i
  {
    if i > 0 {
      WordsAt(settings[1..], i - 1);
    }
  }

  lemma ModelRow()
    ensures |SETTINGS| == 30 && SETTINGS[2] == MODEL
    ensures SETTINGS[0].table != "provider" && SETTINGS[1].table != "provider"
  {
    assert |SETTINGS[0].table| == 7 && |SETTINGS[1].table| == 7;
  }

  lemma ModelSetting(global: Document, project: Document, document: Document)
    ensures var model := ResolveSetting(global, project, document, MODEL).value;
      WordsSetting(ResolveAll(SETTINGS, global, project, document), "provider", "model")
      == if model.Words? then Some(model.text) else None
  {
    ModelRow();
    WordsAt(ResolveAll(SETTINGS, global, project, document), 2);
  }

  /** The model resolved in full is the layers'. */
  lemma ModelIsLayered(host: Host, global: Document, project: Document)
    requires ExpandGlobalMcp(host, global).Some?
    requires ExpandDocument(host, Merged(ExpandGlobalMcp(host, global).value, project)).Some?
    ensures var document := ExpandDocument(host, Merged(ExpandGlobalMcp(host, global).value, project)).value;
      WordsSetting(ResolveAll(SETTINGS, global, project, document), "provider", "model") == ModelOf(global, project)
  {
    var merged := Merged(ExpandGlobalMcp(host, global).value, project);
    ModelSetting(global, project, ExpandDocument(host, merged).value);
    ExpandedLookup(host, merged, MODEL);
    McpKeepsSections(host, global, project, "provider", "model");
    MergedSetting(global, project, MODEL);
  }

  /** What a full resolution needs of the two documents and the credentials. */
  ghost predicate Resolvable(
    host: Host, checks: Checks, catalog: seq<Spec>, global: Document, project: Document, credentials: File)
  {
    && "mcp" !in project
    && checks.validates(global) && checks.validates(project)
    && (exists rules :: RuleExtraction.Holds(global, RuleExtraction.Global, rules))
    && (exists rules :: RuleExtraction.Holds(project, RuleExtraction.Project, rules))
    && ExpandGlobalMcp(host, global).Some?
    && (var document := ExpandDocument(host, Merged(ExpandGlobalMcp(host, global).value, project));
        document.Some?
        && checks.serversAccepted(document.value, ResolveAll(catalog, global, project, document.value)))
    && !credentials.Unreadable?
    && (ModelOf(global, project).Some? ==> checks.modelAccepted(ModelOf(global, project).value))
  }

  lemma RulesIff(document: Document, scope: RuleExtraction.Scope)
    ensures RuleExtraction.ScopedRules(document, scope).Some?
            <==> exists rules :: RuleExtraction.Holds(document, scope, rules)
  {
    if RuleExtraction.ScopedRules(document, scope).Some? {
      var rules := RuleExtraction.ScopedRules(document, scope).value;
      RuleExtraction.RulesAreSpelledOut(document, scope, rules);
      assert RuleExtraction.Holds(document, scope, rules);
    }
    if rules :| RuleExtraction.Holds(document, scope, rules) {
      RuleExtraction.RulesAreSpelledOut(document, scope, rules);
    }
  }

  lemma ResolvesFrom(
    host: Host, checks: Checks, catalog: seq<Spec>, paths: Paths, global: Document, project: Document)
    requires
      var expanded := ExpandGlobalMcp(host, global);
      expanded.Some? ==>
        var document := ExpandDocument(host, Merged(expanded.value, project));
        document.Some? ==>
          WordsSetting(ResolveAll(catalog, global, project, document.value), "provider", "model")
          == ModelOf(global, project)
    ensures ResolveDocuments(host, checks, catalog, paths, global, project).Some?
            <==> Resolvable(host, checks, catalog, global, project, host.files(paths.credentials))
  {
    RulesIff(global, RuleExtraction.Global);
    RulesIff(project, RuleExtraction.Project);
  }

  lemma ResolvesFromShipped(host: Host, checks: Checks, paths: Paths, global: Document, project: Document)
    ensures ResolveDocuments(host, checks, SETTINGS, paths, global, project).Some?
            <==> Resolvable(host, checks, SETTINGS, global, project, host.files(paths.credentials))
  {
    if ExpandGlobalMcp(host, global).Some?
       && ExpandDocument(host, Merged(ExpandGlobalMcp(host, global).value, project)).Some? {
      ModelIsLayered(host, global, project);
    }
    ResolvesFrom(host, checks, SETTINGS, paths, global, project);
  }

  /** The two files stand for these documents, and they can be resolved. */
  ghost predicate Usable(host: Host, checks: Checks, paths: Paths, global: Document, project: Document) {
    && StandsFor(host.files(paths.globalConfig), checks, global)
    && StandsFor(host.files(paths.projectConfig), checks, project)
    && Resolvable(host, checks, SETTINGS, global, project, host.files(paths.credentials))
  }

  lemma UsableIff(host: Host, checks: Checks, paths: Paths, global: Document, project: Document)
    ensures Usable(host, checks, paths, global, project)
            <==> LoadToml(checks, host.files(paths.globalConfig)) == Some(global)
                 && LoadToml(checks, host.files(paths.projectConfig)) == Some(project)
                 && ResolveDocuments(host, checks, SETTINGS, paths, global, project).Some?
  {
    LoadsIff(checks, host.files(paths.globalConfig), global);
    LoadsIff(checks, host.files(paths.projectConfig), project);
    ResolvesFromShipped(host, checks, paths, global, project);
  }

  /** The full resolution succeeds exactly if both files stand for documents it can
      use, the credentials can be read, and the model is one there is. */
  lemma ResolvesIff(host: Host, checks: Checks)
    ensures Resolve(host, checks, SETTINGS).Some?
            <==> host.currentDirectory.Some?
                 && var paths := ResolvePaths(ConfigRoot(host), host.home, host.environment);
                    exists global, project :: Usable(host, checks, paths, global, project)
  {
    if host.currentDirectory.Some? {
      ResolvesSomewhere(host, checks);
    }
  }

  lemma ResolvesSomewhere(host: Host, checks: Checks)
    requires host.currentDirectory.Some?
    ensures var paths := ResolvePaths(ConfigRoot(host), host.home, host.environment);
      Resolve(host, checks, SETTINGS).Some? <==> exists global, project :: Usable(host, checks, paths, global, project)
  {
    var paths := ResolvePaths(ConfigRoot(host), host.home, host.environment);
    forall global, project
      ensures Usable(host, checks, paths, global, project)
              <==> LoadToml(checks, host.files(paths.globalConfig)) == Some(global)
                   && LoadToml(checks, host.files(paths.projectConfig)) == Some(project)
                   && ResolveDocuments(host, checks, SETTINGS, paths, global, project).Some?
    {
      UsableIff(host, checks, paths, global, project);
    }
    if Resolve(host, checks, SETTINGS).Some? {
      var global := LoadToml(checks, host.files(paths.globalConfig)).value;
      var project := LoadToml(checks, host.files(paths.projectConfig)).value;
      assert Usable(host, checks, paths, global, project);
    }
  }

  /** Its rules are those the global document spells out, and then the project's. */
  lemma ResolvedRules(
    host: Host, checks: Checks, catalog: seq<Spec>, global: Document, project: Document,
    left: seq<RuleExtraction.ConfigRule>, right: seq<RuleExtraction.ConfigRule>)
    requires Resolve(host, checks, catalog).Some?
    requires var paths := Resolve(host, checks, catalog).value.paths;
      && StandsFor(host.files(paths.globalConfig), checks, global)
      && StandsFor(host.files(paths.projectConfig), checks, project)
    requires RuleExtraction.Holds(global, RuleExtraction.Global, left)
    requires RuleExtraction.Holds(project, RuleExtraction.Project, right)
    ensures Resolve(host, checks, catalog).value.permissionRules == left + right
  {
    var paths, g, p, document, rules := ResolveParts(host, checks, catalog);
    LoadsIff(checks, host.files(paths.globalConfig), global);
    LoadsIff(checks, host.files(paths.projectConfig), project);
    RuleExtraction.ExtractedIff(checks.validates, global, project, left, right);
  }

  // ------------------------------------------------------------------ MCP servers

  /** The text a value of an enabled server comes to. */
  predicate Becomes(host: Host, value: Value, expanded: Value) {
    match value
    case Text(raw) =>
      (match Environment.ExpandCommands(host.characters, raw, host.environment, host.shell)
       case Ok(text) => expanded == Text(text)
       case Err(_) => false)
    case _ => expanded == value
  }

  /** Every text of these: command, cwd and url, the entries of env and headers, and
      the items of args. Anything else stays as it is. */
  predicate FieldBecomes(host: Host, field: string, value: Value, expanded: Value) {
    if field in {"command", "cwd", "url"} then Becomes(host, value, expanded)
    else if field in {"env", "headers"} && value.Table? then
      && expanded.Table? && expanded.entries.Keys == value.entries.Keys
      && forall key :: key in value.entries ==> Becomes(host, value.entries[key], expanded.entries[key])
    else if field == "args" && value.Array? then
      && expanded.Array? && |expanded.items| == |value.items|
      && forall i :: 0 <= i < |value.items| ==> Becomes(host, value.items[i], expanded.items[i])
    else expanded == value
  }

  predicate ServerBecomes(host: Host, server: Value, expanded: Value) {
    if !server.Table? || ("disabled" in server.entries && server.entries["disabled"] == Boolean(true)) then
      expanded == server
    else
      && expanded.Table? && expanded.entries.Keys == server.entries.Keys
      && forall field :: field in server.entries ==>
           FieldBecomes(host, field, server.entries[field], expanded.entries[field])
  }

  lemma BecomesIff(host: Host, value: Value, expanded: Value)
    ensures ExpandText(host, value) == Some(expanded) <==> Becomes(host, value, expanded)
  {
  }

  lemma {:induction false} ItemsBecome(host: Host, items: seq<Value>, expanded: seq<Value>)
    ensures ExpandItems(host, items) == Some(expanded)
            <==> |expanded| == |items| && forall i :: 0 <= i < |items| ==> Becomes(host, items[i], expanded[i])
  {
    if items != [] && |expanded| == |items| {
      ItemsBecome(host, items[1..], expanded[1..]);
      BecomesIff(host, items[0], expanded[0]);
      assert expanded == [expanded[0]] + expanded[1..];
      assert forall i :: 1 <= i < |items| ==> items[i] == items[1..][i - 1] && expanded[i] == expanded[1..][i - 1];
    } else if items != [] && ExpandItems(host, items).Some? {
      ItemsBecome(host, items[1..], ExpandItems(host, items[1..]).value);
    }
  }

  lemma EntriesBecome(host: Host, entries: Document, expanded: Document)
    ensures ExpandEntries(host, entries) == Some(expanded)
            <==> expanded.Keys == entries.Keys
                 && forall key :: key in entries ==> Becomes(host, entries[key], expanded[key])
  {
    forall key | key in entries && key in expanded
      ensures ExpandText(host, entries[key]) == Some(expanded[key]) <==> Becomes(host, entries[key], expanded[key])
    {
      BecomesIff(host, entries[key], expanded[key]);
    }
    if expanded.Keys == entries.Keys && (forall key :: key in entries ==> Becomes(host, entries[key], expanded[key])) {
      assert forall key :: key in entries ==> ExpandText(host, entries[key]).Some?;
      assert expanded == map key | key in entries :: ExpandText(host, entries[key]).value;
    }
  }

  lemma FieldBecomesIff(host: Host, field: string, value: Value, expanded: Value)
    ensures ExpandServerField(host, field, value) == Some(expanded) <==> FieldBecomes(host, field, value, expanded)
  {
    BecomesIff(host, value, expanded);
    if value.Table? && expanded.Table? {
      EntriesBecome(host, value.entries, expanded.entries);
    }
    if value.Array? && expanded.Array? {
      ItemsBecome(host, value.items, expanded.items);
    }
  }

  predicate Disabled(server: Document) {
    "disabled" in server && server["disabled"] == Boolean(true)
  }

  /** Two tables of fields, one the other expanded. */
  lemma FieldsBecome(host: Host, fields: Document, expanded: Document)
    ensures (forall field :: field in fields ==> ExpandServerField(host, field, fields[field]).Some?)
            && expanded == (map field | field in fields && ExpandServerField(host, field, fields[field]).Some? ::
                              ExpandServerField(host, field, fields[field]).value)
            <==> expanded.Keys == fields.Keys
                 && forall field :: field in fields ==> FieldBecomes(host, field, fields[field], expanded[field])
  {
    forall field | field in fields && field in expanded
      ensures ExpandServerField(host, field, fields[field]) == Some(expanded[field])
              <==> FieldBecomes(host, field, fields[field], expanded[field])
    {
      FieldBecomesIff(host, field, fields[field], expanded[field]);
    }
  }

  lemma ServerBecomesIff(host: Host, server: Value, expanded: Value)
    ensures ExpandServer(host, server) == Some(expanded) <==> ServerBecomes(host, server, expanded)
  {
    if server.Table? && !Disabled(server.entries) {
      if expanded.Table? {
        FieldsBecome(host, server.entries, expanded.entries);
      }
      if forall field :: field in server.entries ==> ExpandServerField(host, field, server.entries[field]).Some? {
        assert (map field | field in server.entries ::
                  ExpandServerField(host, field, server.entries[field]).value)
               == (map field | field in server.entries
                     && ExpandServerField(host, field, server.entries[field]).Some? ::
                     ExpandServerField(host, field, server.entries[field]).value);
      }
    }
  }

  /** Two tables of servers, one the other expanded. */
  lemma ServersBecome(host: Host, servers: Document, expanded: Document)
    ensures (forall name :: name in servers ==> ExpandServer(host, servers[name]).Some?)
            && expanded == (map name | name in servers && ExpandServer(host, servers[name]).Some? ::
                              ExpandServer(host, servers[name]).value)
            <==> expanded.Keys == servers.Keys
                 && forall name :: name in servers ==> ServerBecomes(host, servers[name], expanded[name])
  {
    forall name | name in servers && name in expanded
      ensures ExpandServer(host, servers[name]) == Some(expanded[name])
              <==> ServerBecomes(host, servers[name], expanded[name])
    {
      ServerBecomesIff(host, servers[name], expanded[name]);
    }
  }

  /** Without a table of servers there is nothing to expand. */
  lemma NoServersToExpand(host: Host, document: Document)
    requires "mcp" in document ==> !document["mcp"].Table?
    ensures ExpandGlobalMcp(host, document) == Some(document)
  {
  }

  /** Expanding the MCP section expands the texts of the enabled servers, with their
      commands, and touches nothing else; it succeeds exactly if they all expand. */
  lemma McpBecomes(host: Host, document: Document, expanded: Document)
    requires "mcp" in document && document["mcp"].Table?
    ensures ExpandGlobalMcp(host, document) == Some(expanded)
            <==> expanded.Keys == document.Keys && expanded["mcp"].Table?
                 && (forall section :: section in document && section != "mcp" ==>
                       expanded[section] == document[section])
                 && expanded["mcp"].entries.Keys == document["mcp"].entries.Keys
                 && forall name :: name in document["mcp"].entries ==>
                      ServerBecomes(host, document["mcp"].entries[name], expanded["mcp"].entries[name])
  {
    var servers := document["mcp"].entries;
    if "mcp" in expanded && expanded["mcp"].Table? {
      ServersBecome(host, servers, expanded["mcp"].entries);
    }
    if forall name :: name in servers ==> ExpandServer(host, servers[name]).Some? {
      var others := map name | name in servers :: ExpandServer(host, servers[name]).value;
      assert others == map name | name in servers && ExpandServer(host, servers[name]).Some? ::
        ExpandServer(host, servers[name]).value;
      SectionReplaced(document, "mcp", Table(others), expanded);
    }
  }

  lemma SectionReplaced(document: Document, section: string, value: Value, expanded: Document)
    requires section in document
    ensures expanded == document[section := value]
            <==> expanded.Keys == document.Keys && expanded[section] == value
                 && forall other :: other in document && other != section ==> expanded[other] == document[other]
  {
  }
}
