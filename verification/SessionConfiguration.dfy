/**
  Session-scoped configuration of agens-bootstrap: what a session reads from its
  own root, whatever root the process started at.
*/
module SessionConfiguration {
  import opened Wrappers
  import opened Documents
  import opened Bootstrap
  import RuleExtraction
  import Settings

  datatype Profile = Profile(model: Option<string>, effort: Option<string>)

  datatype SessionConfig = SessionConfig(
    permissionRules: seq<RuleExtraction.ConfigRule>,
    systemPrompt: Option<string>,
    providerBaseUrl: Option<string>,
    bypassPermissionPrompts: bool,
    globalProfiles: map<string, Profile>,
    projectProfiles: map<string, Profile>)

  function DocumentText(document: Document, section: string, key: string): Option<string> {
    match Lookup(document, [section, key])
    case Some(Text(text)) => Some(text)
    case _ => None
  }

  function DocumentBool(document: Document, section: string, key: string): Option<bool> {
    match Lookup(document, [section, key])
    case Some(Boolean(flag)) => Some(flag)
    case _ => None
  }

  const EFFORTS: set<string> := {"none", "minimal", "low", "medium", "high", "xhigh", "max"}

  predicate ValidProfile(value: Value) {
    && value.Table?
    && (forall field :: field in value.entries ==> field in {"model", "effort"} && value.entries[field].Text?)
    && ("effort" in value.entries ==> value.entries["effort"].text in EFFORTS)
  }

  function ProfileField(entries: Document, field: string): Option<string> {
    if field in entries && entries[field].Text? then Some(entries[field].text) else None
  }

  /** `parse_agent_profiles`. */
  function ParseProfiles(document: Document): Option<map<string, Profile>> {
    if "agents" !in document then Some(map[])
    else if !document["agents"].Table? then None
    else
      var agents := document["agents"].entries;
      if forall name :: name in agents ==> ValidProfile(agents[name]) then
        Some(map name | name in agents ::
          Profile(ProfileField(agents[name].entries, "model"), ProfileField(agents[name].entries, "effort")))
      else None
  }

  /** The project's word, else the global document's; the two are never merged. */
  function Preferred(project: Document, global: Document, section: string, key: string): Option<string> {
    var own := DocumentText(project, section, key);
    if own.Some? then own else DocumentText(global, section, key)
  }

  /** `SessionConfig::resolve` over the files as they are when it is asked. */
  function ResolveSession(files: Path -> File, checks: Checks, root: Path, bootstrap: Bootstrap)
    : Option<SessionConfig>
  {
    var project := LoadToml(checks, files(ProjectConfig(root)));
    var global := LoadToml(checks, files(bootstrap.paths.globalConfig));
    if project.None? || global.None? then None
    else
      var own := RuleExtraction.ExtractRules(checks.validates, map[], project.value);
      var globalProfiles := ParseProfiles(global.value);
      var projectProfiles := ParseProfiles(project.value);
      if own.None? || globalProfiles.None? || projectProfiles.None? then None
      else
        var bypass := DocumentBool(global.value, "agent", "bypass_permission_prompts");
        Some(SessionConfig(
          RuleExtraction.OfScope(bootstrap.permissionRules, RuleExtraction.Global) + own.value,
          Preferred(project.value, global.value, "agent", "system_prompt"),
          Preferred(project.value, global.value, "provider", "base_url"),
          FlagOr(bypass, false),
          globalProfiles.value,
          projectProfiles.value))
  }

  /** The rules a bootstrap hands down to its sessions are those of its global
      document alone. */
  lemma GlobalRulesOf(host: Host, checks: Checks, catalog: seq<Settings.Spec>)
    requires Resolve(host, checks, catalog).Some?
    ensures var bootstrap := Resolve(host, checks, catalog).value;
      var global := LoadToml(checks, host.files(bootstrap.paths.globalConfig));
      && global.Some?
      && Some(RuleExtraction.OfScope(bootstrap.permissionRules, RuleExtraction.Global))
         == RuleExtraction.ScopedRules(global.value, RuleExtraction.Global)
  {
    var paths, global, project, document, rules := ResolveParts(host, checks, catalog);
    RuleExtraction.ScopesStayApart(checks.validates, global, project);
  }

  /** Two processes whose global file was the same when they started, and that find
      the same global file and the same file of the session's root when the session
      asks, give it the same configuration, whatever their own project roots,
      project files, directories and environments say. */
  lemma SessionIgnoresProcessRoot(
    left: Host, right: Host, nowLeft: Path -> File, nowRight: Path -> File, checks: Checks,
    catalog: seq<Settings.Spec>, root: Path)
    requires Resolve(left, checks, catalog).Some? && Resolve(right, checks, catalog).Some?
    requires Resolve(left, checks, catalog).value.paths.globalConfig
             == Resolve(right, checks, catalog).value.paths.globalConfig
    requires var global := Resolve(left, checks, catalog).value.paths.globalConfig;
             left.files(global) == right.files(global) && nowLeft(global) == nowRight(global)
    requires nowLeft(ProjectConfig(root)) == nowRight(ProjectConfig(root))
    ensures ResolveSession(nowLeft, checks, root, Resolve(left, checks, catalog).value)
            == ResolveSession(nowRight, checks, root, Resolve(right, checks, catalog).value)
  {
    GlobalRulesOf(left, checks, catalog);
    GlobalRulesOf(right, checks, catalog);
  }

  /** A session's rules are those of the global document its process started with,
      followed by those its own root's document has now; and no project document
      reaches the bypass flag: any two sessions that find the same global document
      now agree on it. */
  lemma SessionSources(
    left: Host, right: Host, nowLeft: Path -> File, nowRight: Path -> File, checks: Checks,
    catalog: seq<Settings.Spec>, one: Path, other: Path)
    requires Resolve(left, checks, catalog).Some? && Resolve(right, checks, catalog).Some?
    requires var a := Resolve(left, checks, catalog).value; var b := Resolve(right, checks, catalog).value;
      && nowLeft(a.paths.globalConfig) == nowRight(b.paths.globalConfig)
      && ResolveSession(nowLeft, checks, one, a).Some? && ResolveSession(nowRight, checks, other, b).Some?
    ensures var a := Resolve(left, checks, catalog).value; var b := Resolve(right, checks, catalog).value;
      var session := ResolveSession(nowLeft, checks, one, a).value;
      && session.bypassPermissionPrompts == ResolveSession(nowRight, checks, other, b).value.bypassPermissionPrompts
      && var started := LoadToml(checks, left.files(a.paths.globalConfig));
         var project := LoadToml(checks, nowLeft(ProjectConfig(one)));
      && started.Some? && project.Some?
      && RuleExtraction.ScopedRules(started.value, RuleExtraction.Global).Some?
      && RuleExtraction.ScopedRules(project.value, RuleExtraction.Project).Some?
      && session.permissionRules
         == RuleExtraction.ScopedRules(started.value, RuleExtraction.Global).value
            + RuleExtraction.ScopedRules(project.value, RuleExtraction.Project).value
  {
    GlobalRulesOf(left, checks, catalog);
    var project := LoadToml(checks, nowLeft(ProjectConfig(one))).value;
    RuleExtraction.ScopesStayApart(checks.validates, map[], project);
    RuleExtraction.EmptyDocumentHasNoRules();
    var own := RuleExtraction.ScopedRules(project, RuleExtraction.Project).value;
    assert [] + own == own;
  }

  // ------------------------------------------------------------ what a session reads

  predicate Says(document: Document, path: seq<string>, text: string)
    requires path != []
  {
    Lookup(document, path) == Some(Text(text))
  }

  /** The project says this text, or says no text there and the global document does. */
  ghost predicate SaidByEither(project: Document, global: Document, path: seq<string>, text: string)
    requires path != []
  {
    Says(project, path, text) || ((forall other :: !Says(project, path, other)) && Says(global, path, text))
  }

  lemma PreferredIff(project: Document, global: Document, section: string, key: string, text: string)
    ensures Preferred(project, global, section, key) == Some(text)
            <==> SaidByEither(project, global, [section, key], text)
  {
    var own := DocumentText(project, section, key);
    if own.Some? {
      assert Says(project, [section, key], own.value);
    }
  }

  /** One entry per name under `agents`, with the texts it gives. */
  ghost predicate ProfilesOf(document: Document, profiles: map<string, Profile>) {
    && (forall name :: name in profiles <==> Lookup(document, ["agents", name]).Some?)
    && (forall name, text :: name in profiles ==>
          && (profiles[name].model == Some(text) <==> Says(document, ["agents", name, "model"], text))
          && (profiles[name].effort == Some(text) <==> Says(document, ["agents", name, "effort"], text)))
  }

  /** A table that holds at most a model, which is a text, and an effort, which is one
      of seven. */
  predicate GoodProfile(value: Value) {
    && value.Table?
    && forall field :: field in value.entries ==>
         || (field == "model" && value.entries[field].Text?)
         || (field == "effort" && value.entries[field] in {
               Text("none"), Text("minimal"), Text("low"), Text("medium"), Text("high"), Text("xhigh"), Text("max")})
  }

  predicate GoodProfiles(document: Document) {
    "agents" in document ==>
      && document["agents"].Table?
      && forall name :: name in document["agents"].entries ==> GoodProfile(document["agents"].entries[name])
  }

  lemma LookupDeeper(document: Document, name: string, rest: seq<string>)
    requires rest != []
    ensures Lookup(document, [name] + rest)
            == if name in document && document[name].Table? then Lookup(document[name].entries, rest) else None
  {
    assert ([name] + rest)[1..] == rest;
  }

  lemma LookupProfile(document: Document, name: string, field: string, text: string)
    requires "agents" in document && document["agents"].Table? && name in document["agents"].entries
    requires document["agents"].entries[name].Table?
    ensures Says(document, ["agents", name, field], text)
            <==> ProfileField(document["agents"].entries[name].entries, field) == Some(text)
  {
    var agents := document["agents"].entries;
    LookupDeeper(document, "agents", [name, field]);
    assert ["agents"] + [name, field] == ["agents", name, field];
    LookupDeeper(agents, name, [field]);
    assert [name] + [field] == [name, field];
  }

  lemma LookupAgent(document: Document, name: string)
    ensures Lookup(document, ["agents", name]).Some?
            <==> "agents" in document && document["agents"].Table? && name in document["agents"].entries
  {
    LookupDeeper(document, "agents", [name]);
    assert ["agents"] + [name] == ["agents", name];
  }

  lemma ValidIffGood(value: Value)
    ensures ValidProfile(value) <==> GoodProfile(value)
  {
    if value.Table? && "effort" in value.entries && value.entries["effort"].Text? {
      var effort := value.entries["effort"].text;
      assert value.entries["effort"] == Text(effort);
    }
  }

  /** Profiles are accepted exactly if all of them are good, and are then the ones
      the document writes. */
  lemma ProfilesIff(document: Document)
    ensures ParseProfiles(document).Some? <==> GoodProfiles(document)
    ensures ParseProfiles(document).Some? ==> ProfilesOf(document, ParseProfiles(document).value)
  {
    forall value: Value
      ensures ValidProfile(value) <==> GoodProfile(value)
    {
      ValidIffGood(value);
    }
    if ParseProfiles(document).Some? {
      var profiles := ParseProfiles(document).value;
      forall name
        ensures name in profiles <==> Lookup(document, ["agents", name]).Some?
      {
        LookupAgent(document, name);
      }
      forall name, text | name in profiles
        ensures profiles[name].model == Some(text) <==> Says(document, ["agents", name, "model"], text)
        ensures profiles[name].effort == Some(text) <==> Says(document, ["agents", name, "effort"], text)
      {
        LookupProfile(document, name, "model", text);
        LookupProfile(document, name, "effort", text);
      }
    }
  }

  /** The documents a session finds at its own root and at the global file. */
  predicate Finds(
    files: Path -> File, checks: Checks, root: Path, bootstrap: Bootstrap, project: Document, global: Document)
  {
    && StandsFor(files(ProjectConfig(root)), checks, project)
    && StandsFor(files(bootstrap.paths.globalConfig), checks, global)
  }

  /** A session gets a configuration exactly if it finds both documents, the rules of
      its own root's can be read, and all profiles are good. */
  lemma SessionResolvesIff(files: Path -> File, checks: Checks, root: Path, bootstrap: Bootstrap)
    ensures ResolveSession(files, checks, root, bootstrap).Some?
            <==> exists project, global, own ::
                   Resolves(files, checks, root, bootstrap, project, global, own)
  {
    var project := LoadToml(checks, files(ProjectConfig(root)));
    var global := LoadToml(checks, files(bootstrap.paths.globalConfig));
    if p, g, own :| Resolves(files, checks, root, bootstrap, p, g, own) {
      SessionFields(files, checks, root, bootstrap, p, g, own);
    }
    if ResolveSession(files, checks, root, bootstrap).Some? {
      LoadsIff(checks, files(ProjectConfig(root)), project.value);
      LoadsIff(checks, files(bootstrap.paths.globalConfig), global.value);
      ProfilesIff(project.value);
      ProfilesIff(global.value);
      RuleExtraction.EmptyDocumentHasNoRules();
      var own := RuleExtraction.ScopedRules(project.value, RuleExtraction.Project).value;
      RuleExtraction.RulesAreSpelledOut(project.value, RuleExtraction.Project, own);
      assert Resolves(files, checks, root, bootstrap, project.value, global.value, own);
    }
  }

  ghost predicate Resolves(
    files: Path -> File, checks: Checks, root: Path, bootstrap: Bootstrap, project: Document, global: Document,
    own: seq<RuleExtraction.ConfigRule>)
  {
    && Finds(files, checks, root, bootstrap, project, global)
    && RuleExtraction.Holds(project, RuleExtraction.Project, own)
    && checks.validates(map[]) && checks.validates(project)
    && GoodProfiles(project) && GoodProfiles(global)
  }

  /** Every field of it, from the two documents: the prompt and the address are the
      project's word or else the global document's, the bypass flag the global
      document's alone, and each document has its own profiles. */
  lemma SessionFields(
    files: Path -> File, checks: Checks, root: Path, bootstrap: Bootstrap, project: Document, global: Document,
    own: seq<RuleExtraction.ConfigRule>)
    requires Resolves(files, checks, root, bootstrap, project, global, own)
    ensures ResolveSession(files, checks, root, bootstrap).Some?
    ensures var session := ResolveSession(files, checks, root, bootstrap).value;
      && session.permissionRules == RuleExtraction.OfScope(bootstrap.permissionRules, RuleExtraction.Global) + own
      && (forall text ::
            session.systemPrompt == Some(text) <==> SaidByEither(project, global, ["agent", "system_prompt"], text))
      && (forall text ::
            session.providerBaseUrl == Some(text) <==> SaidByEither(project, global, ["provider", "base_url"], text))
      && (session.bypassPermissionPrompts
          <==> Lookup(global, ["agent", "bypass_permission_prompts"]) == Some(Boolean(true)))
      && ProfilesOf(global, session.globalProfiles) && ProfilesOf(project, session.projectProfiles)
  {
    LoadsIff(checks, files(ProjectConfig(root)), project);
    LoadsIff(checks, files(bootstrap.paths.globalConfig), global);
    ProfilesIff(project);
    ProfilesIff(global);
    OwnRules(checks, project, own);
    forall text
      ensures Preferred(project, global, "agent", "system_prompt") == Some(text)
              <==> SaidByEither(project, global, ["agent", "system_prompt"], text)
      ensures Preferred(project, global, "provider", "base_url") == Some(text)
              <==> SaidByEither(project, global, ["provider", "base_url"], text)
    {
      PreferredIff(project, global, "agent", "system_prompt", text);
      PreferredIff(project, global, "provider", "base_url", text);
    }
  }

  lemma OwnRules(checks: Checks, project: Document, own: seq<RuleExtraction.ConfigRule>)
    requires RuleExtraction.Holds(project, RuleExtraction.Project, own)
    requires checks.validates(map[]) && checks.validates(project)
    ensures RuleExtraction.ExtractRules(checks.validates, map[], project) == Some(own)
  {
    RuleExtraction.EmptyDocumentHasNoRules();
    RuleExtraction.RulesAreSpelledOut(map[], RuleExtraction.Global, []);
    RuleExtraction.ExtractedIff(checks.validates, map[], project, [], own);
    assert [] + own == own;
  }
}
