# Agens: a verified model

Agens is a coding agent with a daemon behind it. This project models five of its cores in Dafny and
proves what they are relied on for.

* **The publish bus** (`agens-bus`). Any number of publishers put events on one bounded channel. They
  take turns through a publication mutex they only ever try to lock, number their events from a shared
  counter, and give up when the bridge is closed, the call is cancelled or its deadline passes. `Bus`
  makes every shared access one step of a publisher; a schedule is any sequence of publisher steps,
  closings, cancellations, clock ticks and receiver steps, so each theorem about `Run` covers every
  interleaving.
* **The configuration language** (`agens-config`). `Glob` and `Overlap` hold the target patterns: a
  recursive matcher, proved to accept exactly a declarative language, and a static overlap analysis.
  `PermissionRules` and `RuleExtraction` hold the rule syntax and its collection from documents,
  `Environment` the single-pass expander, `Documents` the deep merge, `Settings` the attribution of each
  value to its layer.
* **Bootstrapping** (`agens-bootstrap`). `Bootstrap` proves that a launch attached to a running daemon
  resolves what the full resolution would, from two sections alone. `SessionConfiguration` proves that a
  session's configuration does not depend on the root its process started at.
* **The coordinator worker** (`agens-cli`, with `agens-server`). `RunDescription` covers the growing fence
  and the message printed behind it. `RunMachine` is the run state machine with the attempts it opens and
  closes, `WorkerSession` one session's end-of-turn protocol against a run row that everybody moves at
  once, and `Launching` all sessions of a run together with the scheduler that launches them.
  `FactLedger` is the once-only attribution of a turn's facts.
* **The profile store** (`agens-cli`). `ProfileStore` lets any number of savers, crashes and other
  programs interleave over one file system; `ProfileSave` is the code of one save, with its loops, proved
  against an exact contract and proved to take only steps of `ProfileStore`.

`Wrappers` and `Text` hold what the others share. `dafny verify dfyconfig.toml` checks the whole project.

## How the modules are built

Code that computes a value by recursion is a function here; its lemmas state what it means. Code that
loops over a buffer is a method with a loop, whose `ensures` ties it to a function, and the lemmas are
about that function. Concurrent code is a function from a state and an action to the next state, with
an action for each shared access, and the lemmas range over all schedules. Fields such as `sends`,
`changes` or `reported` record the history of a run; no step reads them.

Four claims one might expect do not hold of the code as they stand: the third fails only among concurrent
callers, the fourth only when a store does. Each appears as a lemma with a concrete input, beside an
if-and-only-if that says when the claim holds:

| claim | witness | when it holds |
|---|---|---|
| merging documents is associative | `Documents.TableScalarTable` | exactly on the documents `Associates` names: `Documents.MergeAssociatesIff` |
| a save overwrites no change its re-read has not seen | `ProfileStore.UpdatesMayBeLost` | exactly in the runs in which nobody's change lands while it stands between its re-read and its rename: `ProfileStore.UnracedIff` |
| `TurnStarted` is the first fact of a turn | `FactLedger.StartMayComeSecond` | exactly in the interleavings in which no caller offers its fact while another is about to announce: `FactLedger.StartIsFirstIff` |
| a session closes its own leg only, and none once it has parked the run | `Launching.EarlyAdmissionIsReported`, `Launching.AbandonedSessionIsReported` | as long as launches can read the previous session and admissions can be written, and neither can be spared: `Launching.FaultsIff`; for a single launch, exactly if it can read the previous session or none is live: `Launching.LaunchIsSafeIff` |

On its ordinary path the code does keep sessions to their own legs: a launch takes over the id of the
last leg's session, and the registry refuses an id that is still live. What gets past it is a launch that
fails to read that id, which falls through to a fresh one, and an admission whose write fails after its
launch, because the session abandoned over it is only asked to stop and its id is on no leg.

Two more results: settings are attributed exactly for every pair of documents, valid or not
(`Settings.ProvenanceIsExact`); and a failed save leaves its temporary file behind exactly if it could
not give it the target's permissions or could not remove it (`ProfileSave.AgentProfileStore.Save`).

## Model

| member | source | states |
|---|---|---|
| Bus.OrderedDelivery | crates/agens-bus/src/lib.rs:93-147 | in every run, what was received followed by what is queued carries strictly increasing ordinals; no call is enqueued twice and one thread's calls keep their order |
| Bus.AtMostOneAfterClose | crates/agens-bus/src/lib.rs:88-125 | after a schedule with a close in it, at most one more envelope is ever enqueued, by the publisher that then held the lock past its closed check |
| Bus.HonestOutcomes | crates/agens-bus/src/lib.rs:99-163 | a call returns Published{n} exactly if its envelope was enqueued under n; every other outcome enqueued nothing and names a cause that holds |
| Bus.Conservation | crates/agens-bus/src/lib.rs:99-170 | ordinals taken = sent + abandoned + in flight, the queue stays within capacity, one thread at most is inside the guard, the fallback Closed is unreachable |
| Bus.LaterCallsComeLater | crates/agens-bus/src/lib.rs:93-147 | order across threads: a call begun after an envelope was enqueued is enqueued behind it, under a larger ordinal |
| Bus.DoomedCallReturns | crates/agens-bus/src/lib.rs:106-147 | once closed, cancelled or past its deadline, a call returns within ten accesses of its own, whoever holds the lock |
| Bus.DoomedCallIsRefused | crates/agens-bus/src/lib.rs:128-170 | a call begun when closed, cancelled or late returns that cause or one checked before it, without an ordinal: after close every call returns Closed |
| Bus.CloseRefusesLaterCalls | crates/agens-bus/src/lib.rs:88-91 | over every schedule with a close in it, a call begun afterwards returns Closed after ten steps of its own |
| Bus.CancelRefusesLaterCalls | crates/agens-bus/src/lib.rs:22-24 | after a cancellation of its token a call returns Cancelled, or Closed |
| Bus.DeadlineRefusesLaterCalls | crates/agens-bus/src/lib.rs:128-147 | after as many ticks as its deadline a call returns DeadlineExpired, or a cause checked before it |
| Bus.DropDisconnectsLaterCalls | crates/agens-bus/src/lib.rs:117-124 | after the receiver is dropped, a call nothing else stops returns Disconnected |
| Bus.NothingSentAfterDrop | crates/agens-bus/src/lib.rs:117-124 | after the receiver is dropped nothing is enqueued any more |
| Bus.StateIsHistory | crates/agens-bus/src/lib.rs:88-91 | the flags and the clock say exactly which actions there have been |
| Bus.ReceiveHandsOver | crates/agens-bus/src/lib.rs:75-86 | a receive hands over the oldest envelope accepted and not yet received, and nothing else |
| Bus.ReceivesDrain | crates/agens-bus/src/lib.rs:75-86 | receiving as often as there are envelopes queued yields everything accepted, in order |
| Bus.UnobstructedCallIsPublished | crates/agens-bus/src/lib.rs:93-118 | with nothing in its way a call appends its event under the next ordinal, frees the lock and changes nothing else |
| Bus.ExclusionStep | crates/agens-bus/src/lib.rs:128-147 | every step keeps: a thread is in the guard's scope exactly if it owns the publication lock |
| Bus.OrderingStep | crates/agens-bus/src/lib.rs:103-125 | every step keeps: ordinals are sent in the order they were taken and none is lost count of |
| Bus.AttributionStep | crates/agens-bus/src/lib.rs:93-126 | every step keeps: the sends of a thread are exactly its published calls, in order |
| Bus.HonestyStep | crates/agens-bus/src/lib.rs:149-163 | every step keeps: what a refusal established still holds when its outcome is computed |
| Bus.InvRun | crates/agens-bus/src/lib.rs:52-58 | the five invariants together survive every schedule |
| Bus.SinceCloseRun | crates/agens-bus/src/lib.rs:88-125 | what a closed bridge leaves possible is kept by every schedule |
| Glob.GlobMatchesIff | crates/agens-config/src/lib.rs:1593-1675 | the matcher accepts exactly the texts that can be cut into one admitted part per pattern token |
| Glob.MatchesFromIff | crates/agens-config/src/lib.rs:1602-1657 | the same from every pair of positions; the matcher terminates and never reads past the candidate |
| Glob.MatcherStep | crates/agens-config/src/lib.rs:1608-1655 | one unfolding of the matcher consumes one part that the token at hand admits |
| Glob.VisitsTokenStarts | crates/agens-config/src/lib.rs:1602-1675 | the matcher recurses on the starts of tokens only |
| Glob.MatchVisitsTheEnd | crates/agens-config/src/lib.rs:1608-1609 | where the matcher accepts, it has got to the end of the pattern |
| Glob.DirectoryByEnd | crates/agens-config/src/lib.rs:1659-1675 | two stars and a slash take nothing, or any stretch that ends in a slash |
| Glob.ClassMatches | crates/agens-config/src/lib.rs:1677-1694 | the scan over a class body decides membership in its ranges, or the opposite when negated |
| Glob.ClassSpelledOut | crates/agens-config/src/lib.rs:1677-1694 | a class body character by character: nothing, one character, or a range in front, under either negation sign or none |
| Glob.ClassListsCharacters | crates/agens-config/src/lib.rs:1677-1694 | without hyphens a body lists exactly what it admits, or excludes |
| Overlap.OverlapIsSound | crates/agens-config/src/lib.rs:1544-1591 | if any target at all is covered by both patterns an overlap is reported; the answer is symmetric |
| Overlap.OverlapWithLiteralExactly | crates/agens-config/src/lib.rs:1544-1573 | against a literal target the report is exact, but for `t/**` against `t`, which share nothing |
| Overlap.OverlapOfGlobsIff | crates/agens-config/src/lib.rs:1544-1591 | two targets with metacharacters, or missing ones, are reported exactly unless they part ways before the first metacharacter of either |
| Overlap.MatchBeginsLiterally | crates/agens-config/src/lib.rs:1579-1591 | every match of a pattern begins with its literal prefix, which is what makes prefix disjointness sound |
| Overlap.LiteralMatchesItself | crates/agens-config/src/lib.rs:1575-1577 | a pattern without metacharacters matches itself and nothing else |
| PermissionRules.ParsePrint | crates/agens-config/src/lib.rs:1412-1441 | a text is accepted as a rule exactly if the rule is well formed and prints to that very text |
| PermissionRules.PrintParses | crates/agens-config/src/lib.rs:1412-1441 | every well-formed rule prints to a text that parses to it |
| PermissionRules.ParsePrints | crates/agens-config/src/lib.rs:1412-1441 | every accepted text is the print of a well-formed rule |
| PermissionRules.AcceptedIff | crates/agens-config/src/lib.rs:1412-1489 | a text is accepted as a rule exactly if it names a tool of three spelled-out kinds and a target, if any, that is not blank, climbs nowhere, hides no separator, holds no parentheses and has its brackets in order |
| PermissionRules.PlainTargetIsAccepted | crates/agens-config/src/lib.rs:1412-1489 | behind a tool of these, every target without parentheses, brackets, separators in disguise and parent segments is accepted |
| PermissionRules.GroundedIff | crates/agens-config/src/lib.rs:1443-1462 | the tools are the built-in names, the identifiers without a double underscore, and two identifiers around `::` |
| PermissionRules.ClimbsOutIff | crates/agens-config/src/lib.rs:1464-1468 | splitting at slashes finds a parent segment exactly if the target is `..`, begins with `../`, ends with `/..` or holds `/../` |
| PermissionRules.ClassInFront | crates/agens-config/src/lib.rs:1491-1518 | a pair of brackets is valid exactly if what stands between is a class body and what follows is valid |
| PermissionRules.StrayCharacters | crates/agens-config/src/lib.rs:1491-1518 | a bracket never closed, one never opened, and a backslash are not valid |
| PermissionRules.StretchInFront | crates/agens-config/src/lib.rs:1491-1518 | any stretch of other characters in front changes nothing |
| PermissionRules.ClassBodyIff | crates/agens-config/src/lib.rs:1520-1531 | hyphens stand between characters only exactly if the body, but for its sign, neither is empty nor begins or ends with one |
| PermissionRules.HasValidGlobSyntax | crates/agens-config/src/lib.rs:1491-1518 | the bracket scan and the split together decide that every bracket closes around a valid class body |
| PermissionRules.SplitFindsClasses | crates/agens-config/src/lib.rs:1513-1517 | between well-placed brackets the split yields exactly the class bodies |
| PermissionRules.ValidGlobIsClosed | crates/agens-config/src/lib.rs:1491-1531 | the tokens of an accepted target hold no unclosed class, and valid class bodies only |
| PermissionRules.MatcherMeetsNoUnclosedClass | crates/agens-config/src/lib.rs:1638-1646 | on an accepted target every pattern index the matcher recurses on is a token start outside all classes, and its return for an unclosed class is unreachable |
| PermissionRules.ToolNameCharacters | crates/agens-config/src/lib.rs:1443-1462 | a grounded tool name starts with a letter and holds identifier characters and colons only |
| RuleExtraction.EntriesSpellTheRules | crates/agens-config/src/lib.rs:1393-1406 | an array yields a list of rules exactly if it spells that list out, in order |
| RuleExtraction.RulesAreSpelledOut | crates/agens-config/src/lib.rs:1384-1406 | a document has a list of rules exactly if it is what `allow` spells as Allow, then `deny` as Deny, then `ask` as Ask |
| RuleExtraction.ExtractedIff | crates/agens-config/src/lib.rs:319-332 | two documents that spell rules out yield the global ones followed by the project's, if both are valid |
| RuleExtraction.ExtractionFails | crates/agens-config/src/lib.rs:319-332 | if one of them does not, there are none |
| RuleExtraction.PushEntries | crates/agens-config/src/lib.rs:1393-1406 | the inner loop appends the rules of one field, or fails on the first entry that is none |
| RuleExtraction.ExtractScoped | crates/agens-config/src/lib.rs:1376-1410 | the loop over allow, deny and ask appends a document's rules in that order |
| RuleExtraction.ScopesStayApart | crates/agens-config/src/lib.rs:319-332 | the rules of each scope are that scope's document's own, in its order |
| Environment.ExpandEnvironment | crates/agens-config/src/lib.rs:1256-1295 | the loop equals cutting the input into pieces and giving each its value |
| Environment.ExpandPiece | crates/agens-config/src/lib.rs:1264-1291 | one round of the loop reads exactly the piece at hand and gives its value |
| Environment.ReadBraced | crates/agens-config/src/lib.rs:1821-1834 | reads up to the first closing brace, or to the end without one |
| Environment.ReadName | crates/agens-config/src/lib.rs:1276-1283 | reads the longest name from here |
| Environment.SubstituteExactly | crates/agens-config/src/lib.rs:1256-1295 | expansion succeeds exactly if every piece has a value of its own, with their concatenation, and fails with the first piece's failure: nothing is rescanned |
| Environment.BracedNameExpands | crates/agens-config/src/lib.rs:1836-1856 | `${name}` and `${name:-fallback}` before any rest: the variable if it is set, even to nothing, else the fallback, else the error that names it |
| Environment.FallbackOnlyIfUnset | crates/agens-config/src/lib.rs:1846-1855 | the fallback is used exactly if the variable is not set; being empty does not count |
| Environment.InvalidNameIsRefused | crates/agens-config/src/lib.rs:1836-1848 | what is no name between the braces is an error, set or not, with a fallback or without |
| Environment.BareNameExpands | crates/agens-config/src/lib.rs:1275-1289 | `$name` before a character that continues no name gives the variable, or the error that names it |
| Environment.OpenBraceFails | crates/agens-config/src/lib.rs:1821-1834 | an opening brace that is never closed is an error |
| Environment.CharacterExpands | crates/agens-config/src/lib.rs:1264-1290 | any other character, and a dollar sign before what begins no name, stand for themselves |
| Environment.PiecesAreTheInput | crates/agens-config/src/lib.rs:1263-1292 | the pieces written back are the input |
| Environment.PlainTextIsUnchanged | crates/agens-config/src/lib.rs:1263-1267 | a text without a dollar sign expands to itself |
| Environment.DependsOnNamedVariables | crates/agens-config/src/lib.rs:1836-1856 | the result depends on the variables named in the input and on no others |
| Environment.ExpandEnvironmentWithCommands | crates/agens-config/src/lib.rs:1299-1322 | the loop equals the recursive description: expand, run, go on behind it |
| Environment.CommandsOnlyWhereWritten | crates/agens-config/src/lib.rs:1305-1321 | without `$(` both expansions agree |
| Environment.CommandOutputIsVerbatim | crates/agens-config/src/lib.rs:1297-1322 | a command's output goes in as it is, between two expansions that never see it |
| Environment.CommandsAreRefused | crates/agens-config/src/lib.rs:1305-1316 | a blank command, and one that is never closed, fail the expansion, behind whatever comes before them |
| Documents.MergeTables | crates/agens-config/src/lib.rs:1363-1374 | the recursive loop computes the key-by-key merge, in whatever order keys come |
| Documents.MergedLookup | crates/agens-config/src/lib.rs:1251-1254 | along every key path the project wins except where both are tables; the global value shows through only where nothing is in the way |
| Documents.MergeLaws | crates/agens-config/src/lib.rs:1363-1374 | the empty document is an identity on both sides; merging is idempotent and absorbs a repeated project |
| Documents.MergeAssociatesIff | crates/agens-config/src/lib.rs:1363-1374 | merging is associative exactly where no non-table stands between two tables, or the top one overrides everything below |
| Documents.CoveredIff | crates/agens-config/src/lib.rs:1363-1374 | laying a document over another erases it exactly if it covers every entry of it |
| Documents.SameTablesAssociate | crates/agens-config/src/lib.rs:1363-1374 | documents that agree on which common paths are tables associate |
| Documents.TableScalarTable | crates/agens-config/src/lib.rs:1365-1372 | table, scalar, table at one key: the two groupings differ |
| Settings.ResolveSettings | crates/agens-config/src/lib.rs:901-934 | one entry per catalog row in catalog order, each as its own layers decide |
| Settings.ProvenanceIsExact | crates/agens-config/src/lib.rs:908-928 | against the plain merge each setting is Project, else Global, else Default, with that layer's value, and never Environment |
| Settings.MergedSetting | crates/agens-config/src/lib.rs:936-943 | a setting the merge shows is the one the layers document |
| Settings.SettingIff | crates/agens-config/src/lib.rs:908-943 | a setting is the project's value exactly if the project shows one of the setting's shape, the global document's if only that does, and the catalog's otherwise |
| Settings.LookupIff | crates/agens-config/src/lib.rs:936-943 | which value a document shows: a flag, a number, a text or the texts of an array, each for its kind of setting only |
| Bootstrap.ExpandDocumentInPlace | crates/agens-bootstrap/src/lib.rs:486-499 | the loop edits the two expanded fields in turn |
| Bootstrap.ExpansionProvenance | crates/agens-bootstrap/src/lib.rs:486-499 | after expansion only `options.data_dir` and `provider.base_url` can be the environment's, exactly if expanding changed them |
| Bootstrap.PruneSections | crates/agens-bootstrap/src/lib.rs:419-424 | the loop keeps the attached sections, whole, and nothing else |
| Bootstrap.PruningCommutes | crates/agens-bootstrap/src/lib.rs:367-371 | pruning commutes with the merge and with the expansion |
| Bootstrap.AttachedAgrees | crates/agens-bootstrap/src/lib.rs:268-399 | whenever the full resolution succeeds the attached one does, with the same data directory, project root, paths, `collapse_thinking` and `debug` |
| Bootstrap.AttachedDependsOnSectionsOnly | crates/agens-bootstrap/src/lib.rs:339-427 | the attached resolution is unchanged by any edit outside the two sections, and succeeds exactly if both files parse and the data directory expands |
| Bootstrap.AttachedReadsItsLayers | crates/agens-bootstrap/src/lib.rs:359-399 | with the shipped catalog an attached launch's `debug` and `collapse_thinking` are the project's, else the global document's, else the catalog's; expansion has no part in them |
| Bootstrap.FlagsWithoutRows | crates/agens-bootstrap/src/lib.rs:379-380 | under a catalog without their rows `collapse_thinking` is off and `debug` is on |
| Bootstrap.AttachedResolvesIff | crates/agens-bootstrap/src/lib.rs:339-427 | an attached launch resolves exactly if it runs somewhere, neither file is unreadable or malformed, and the data directory of their two sections expands |
| Bootstrap.AttachedDirectory | crates/agens-bootstrap/src/lib.rs:445-462 | an attached launch uses the expanded `options.data_dir` unless it is missing or empty, else `agens` under `XDG_DATA_HOME`, else under the home's `.local/share`, else under `.local/share` |
| Bootstrap.FullDirectory | crates/agens-bootstrap/src/lib.rs:445-462 | and so does the full resolution |
| Bootstrap.BothLookInStandardPaths | crates/agens-config/src/lib.rs:1349-1361 | both read the same three files, the global ones under `AGENS_CONFIG_HOME`, else `XDG_CONFIG_HOME`, else the home, else here |
| Bootstrap.ResolvesIff | crates/agens-bootstrap/src/lib.rs:268-337 | the full resolution succeeds exactly if it runs somewhere, both files stand for valid documents whose rules, servers and directory can be read, the project has no servers, the credentials can be read and the model is known |
| Bootstrap.ResolvedRules | crates/agens-bootstrap/src/lib.rs:282-283 | its rules are those the global document spells out, then the project's |
| Bootstrap.McpBecomes | crates/agens-bootstrap/src/lib.rs:501-535 | expanding the servers expands the texts of the enabled ones, with their commands, touches nothing else, and succeeds exactly if all of them expand |
| SessionConfiguration.SessionIgnoresProcessRoot | crates/agens-bootstrap/src/session_config.rs:135-187 | processes that started on the same global file, and find the same global and session-root files when asked, give equal session configurations |
| SessionConfiguration.SessionSources | crates/agens-bootstrap/src/session_config.rs:144-178 | a session's rules are those of the global document at start-up followed by its own root's of now; the bypass flag is the global document's of now, whatever any project document says |
| SessionConfiguration.GlobalRulesOf | crates/agens-bootstrap/src/session_config.rs:153-158 | the rules a process hands down are those of its global document |
| SessionConfiguration.SessionResolvesIff | crates/agens-bootstrap/src/session_config.rs:144-187 | a session gets a configuration exactly if both files stand for documents, its own rules can be read and every profile is good |
| SessionConfiguration.SessionFields | crates/agens-bootstrap/src/session_config.rs:153-187 | every field from the two documents: the project's prompt and address or else the global ones, the global bypass flag, and each document's profiles |
| SessionConfiguration.ProfilesIff | crates/agens-config/src/agent_profiles.rs:86-154 | profiles are accepted exactly if each holds at most a text for a model and one of seven efforts, and are then the ones written |
| RunDescription.SectionFenceFor | crates/agens-cli/src/worker.rs:917-930 | the loop ends with the shortest fence of at least five signs that no field contains: max(5, 1 + longest run) |
| RunDescription.ContainsRun | crates/agens-cli/src/worker.rs:922-927 | a text contains a fence exactly if it has a run of signs as long |
| RunDescription.DescriptionRoundTrip | crates/agens-cli/src/worker.rs:901-930 | the description under its own fence has exactly the four headings in order and reads back as the three fields, whatever they hold |
| RunDescription.DescriptionCuts | crates/agens-cli/src/worker.rs:901-909 | under any fence its fields do not contain, splitting at the fence lines yields each field's lines |
| RunDescription.DescriptionIsInjective | crates/agens-cli/src/worker.rs:901-909 | two runs with the same description are the same run |
| RunMachine.EveryHistoryKeepsTheLedger | crates/agens-server/src/fsm/runs.rs:424-537 | over every history legs are numbered in turn, only the last is open and only while running, and chargeable legs never exceed the budget |
| RunMachine.EveryRunKeepsItsLedger | crates/agens-server/src/fsm/runs.rs:424-537 | the same for every run from the moment it is drafted |
| RunMachine.MoveKeepsLedger | crates/agens-server/src/fsm/runs.rs:424-537 | every transition keeps the numbering and the one open leg |
| RunMachine.MoveKeepsBudget | crates/agens-server/src/fsm/runs.rs:667-707 | every transition keeps room for one more leg wherever one may still be admitted |
| RunMachine.RowLegs | crates/agens-server/src/fsm/runs.rs:199-378 | in the table admission alone opens a leg and every way out of running closes it |
| RunMachine.ClosingCharges | crates/agens-store/src/control_plane.rs:1284-1301 | closing the open leg refunds it exactly if it was interrupted |
| RunMachine.MovesIff | crates/agens-server/src/fsm/runs.rs:424-537 | trigger by trigger: exactly when a run moves, to which state, which leg is opened or closed and how |
| RunMachine.CanFinishIff | crates/agens-server/src/fsm/runs.rs:199-378 | a run can be brought to another success exactly unless it is cancelled, or over with its retry budget spent |
| RunMachine.Stuck | crates/agens-server/src/fsm/runs.rs:199-378 | nothing moves a cancelled run, or one that is over with its budget spent |
| WorkerSession.SessionReportsAtMostOnce | crates/agens-cli/src/worker.rs:289-381 | however others move the run, a session applies at most one trigger, only as it ends, and its outcome says what it read |
| Launching.ParkedSessionIsSilent | crates/agens-server/src/scheduler/mod.rs:288-349 | while every launch can read the previous session and write its admission, sessions close only the leg they were launched for, and one that parked the run never moves it again, whatever interleaves |
| Launching.ReportClosesItsOwnLeg | crates/agens-cli/src/worker.rs:612-638 | in those runs a session's move closes the open leg, its own, and touches no other |
| Launching.SessionsKeepToTheirLegs | crates/agens-server/src/sessions.rs:366-419 | in every run in which no launch lands while another session lives, sessions keep to their own legs |
| Launching.LandingIsSafeIff | crates/agens-server/src/scheduler/mod.rs:304-349 | taking the run for a new leg is safe, in every continuation without a further overlap, exactly if no session of it is live |
| Launching.LaunchIsSafeIff | crates/agens-cli/src/worker.rs:731-789 | where the last leg's session is the only one that can be live, a launch is safe exactly if it can read that session's id or none is live |
| Launching.OverlapsIff | crates/agens-server/src/sessions.rs:383-389 | the registry lets a launch past a live session exactly if the launch could not read its id |
| Launching.FaultsIff | crates/agens-server/src/scheduler/mod.rs:304-349 | sessions keep to their legs in all runs exactly under both: readable previous sessions and written admissions |
| Launching.EarlyAdmissionIsReported | crates/agens-cli/src/worker.rs:742-748 | with the previous session unreadable, the session that parked the first leg reports the second one finished |
| Launching.AbandonedSessionIsReported | crates/agens-server/src/scheduler/mod.rs:339-347 | with an admission unwritten, the session abandoned over it takes the next leg and reports it failed |
| Launching.AttendedIff | crates/agens-cli/src/worker.rs:289-381 | a run is never left running without a live session exactly if no session ends on a request it cannot build, a row it cannot read or a core it cannot lock |
| Launching.StrandingStep | crates/agens-cli/src/worker.rs:590-638 | of a session's own steps exactly those three end it with its run still running |
| Launching.InvPlay | crates/agens-server/src/sessions.rs:338-419 | every schedule keeps the run's ledger, each session consistent and its leg one of the run's, and a parked session's leg closed |
| WorkerSession.ReportMovesARunningRun | crates/agens-cli/src/worker.rs:612-638 | a report moves a running run to the state of its trigger and closes the one open leg accordingly |
| WorkerSession.SessionEndsAlone | crates/agens-cli/src/worker.rs:367-556 | with nobody else moving the run, each way a turn can end leads to its state, report and outcome |
| WorkerSession.GivingUpFails | crates/agens-cli/src/worker.rs:289-308 | a session that waited in vain reports a failed attempt, which moves the run only if it was admitted after all |
| WorkerSession.UnreadableRowFails | crates/agens-cli/src/worker.rs:410-638 | a session that cannot read the row at the end of its turn reports nothing, and has failed unless it was refused for the quota |
| WorkerSession.AdmittedTurns | crates/agens-cli/src/worker.rs:289-322 | a session gets to its turn exactly on reading that its run is running and then being made ready |
| WorkerSession.QuestionParks | crates/agens-cli/src/worker.rs:506-556 | a question parks a running run, and the session then ends without a report |
| WorkerSession.SessionsKeepTheLedger | crates/agens-cli/src/worker.rs:289-381 | every interleaving of a session with others keeps the run's ledger and retry budget |
| WorkerSession.OnlyAdmissionRuns | crates/agens-server/src/fsm/runs.rs:219-227 | only an admission makes a run running, and only it adds a leg |
| FactLedger.WorkerFacts.constructor | crates/agens-cli/src/worker_facts.rs:60-75 | a turn starts with no attribution, no tokens and nothing offered |
| FactLedger.WorkerFacts.Attribute | crates/agens-cli/src/worker_facts.rs:148-165 | the first correlation that succeeds is kept and announced; later ones are not asked for |
| FactLedger.WorkerFacts.ObserveEvent | crates/agens-cli/src/worker_facts.rs:122-140 | an event resolves the attribution first, then adds tokens or offers its fact |
| FactLedger.WorkerFacts.TurnHasEnded | crates/agens-cli/src/worker_facts.rs:99-107 | offers the ending with the tokens so far, or nothing without an attribution |
| FactLedger.WorkerFacts.QuotaWasReached | crates/agens-cli/src/worker_facts.rs:114-120 | offers the refusal, or nothing without an attribution |
| FactLedger.FactsAreWellFormed | crates/agens-cli/src/worker_facts.rs:99-169 | over any calls in turn: no facts, or the one TurnStarted first and all under one attribution; the ending carries the usage since the correlation, capped at 64 bits |
| FactLedger.EveryCallOffers | crates/agens-cli/src/worker_facts.rs:99-169 | over any calls before it, each call adds exactly the start, if it is the first to correlate, and its own fact, all under the first correlation; nothing before that |
| FactLedger.TokensAreTheSum | crates/agens-cli/src/worker_facts.rs:130-134 | saturating at every event comes to saturating the sum once |
| FactLedger.StaysWellStarted | crates/agens-cli/src/worker_facts.rs:142-165 | every call keeps the start first, once, and the attribution single |
| FactLedger.ConcurrentCallersStartOnce | crates/agens-cli/src/worker_facts.rs:148-169 | with any number of concurrent callers there is one attribution and at most one TurnStarted, offered as soon as nobody is about to |
| FactLedger.UninterruptedCallIsApply | crates/agens-cli/src/worker_facts.rs:99-169 | a caller nobody interrupts does exactly what the call does in turn |
| FactLedger.AgreedStep | crates/agens-cli/src/worker_facts.rs:155-162 | every critical section keeps that agreement |
| FactLedger.StartIsFirstIff | crates/agens-cli/src/worker_facts.rs:148-165 | among concurrent callers the start is the first fact offered exactly in the interleavings in which no caller overtakes the one that announces it |
| FactLedger.StartMayComeSecond | crates/agens-cli/src/worker_facts.rs:155-162 | another caller's fact can be offered before the start, between the mutex's release and the report |
| ProfileSave.AgentProfileStore.Save | crates/agens-cli/src/profile_store.rs:71-115 | with nobody else touching the files, succeeds exactly if every call does and the target still holds the snapshot; then only the target changed; otherwise no file that was there did, and the temporary one remains exactly if its permissions or its removal failed; and it took only steps of the interleaved model |
| ProfileSave.AgentProfileStore.ReplaceOrDiscard | crates/agens-cli/src/profile_store.rs:96-114 | the closure and its clean-up: replaced, or refused with the temporary file gone if it could be removed |
| ProfileSave.AgentProfileStore.Replace | crates/agens-cli/src/profile_store.rs:96-109 | write, sync, re-read, rename, with the first failure as the result |
| ProfileSave.AgentProfileStore.SaveText | crates/agens-cli/src/profile_store.rs:94-115 | the same outcome once the edit is accepted, within any set of model states closed under the saver's steps |
| ProfileSave.AgentProfileStore.Reread | crates/agens-cli/src/profile_store.rs:102-104 | the second read refuses exactly if it fails or finds something other than the snapshot |
| ProfileSave.AgentProfileStore.RenameOver | crates/agens-cli/src/profile_store.rs:106 | the rename puts the text in the target's place and takes the temporary file away, or changes nothing |
| ProfileSave.AgentProfileStore.CreateTemporaryFile | crates/agens-cli/src/profile_store.rs:143-171 | takes the first of 128 names that is free; a failed permission change leaves the file |
| ProfileSave.AgentProfileStore.WriteAll | crates/agens-cli/src/profile_store.rs:97 | ends with the whole text on disk exactly if the writes suffice |
| ProfileStore.TargetIsWhole | crates/agens-cli/src/profile_store.rs:71-115 | over any interleaving and crash the target holds its initial content, another program's edit, or one successful save's complete replacement |
| ProfileStore.SavesAreOptimistic | crates/agens-cli/src/profile_store.rs:96-109 | a save changed the target exactly if it succeeded, and once; its re-read saw its snapshot, and in an unraced run that is what it wrote over |
| ProfileStore.UnracedIff | crates/agens-cli/src/profile_store.rs:102-106 | for every schedule, a successful save overwrote the very change its re-read saw exactly if no other change landed between the two |
| ProfileStore.UpdatesMayBeLost | crates/agens-cli/src/profile_store.rs:102-106 | two saves can both succeed and leave only the later text |
| ProfileStore.ForeignChangesAreHistory | crates/agens-cli/src/profile_store.rs:102-106 | the changes nobody's save made are exactly the edits by other programs, in order |
| ProfileStore.CrashStopsItsProcess | crates/agens-cli/src/profile_store.rs:71-115 | a crash stops the saves of its process for good, no others, and touches no file |
| ProfileStore.RestartTriesTheFirstName | crates/agens-cli/src/profile_store.rs:143-171 | a process that has started anew tries its first temporary name again |
| ProfileStore.NothingIsLeftBehind | crates/agens-cli/src/profile_store.rs:111-114 | once all saves are over, no new temporary file is on the disk exactly if no process crashed with one in hand and no save failed past its clean-up or in it |
| ProfileStore.InvRun | crates/agens-cli/src/profile_store.rs:71-171 | every schedule keeps each saver's temporary file its own and complete as far as written, and accounts for all of them |

## Left out

- The bus takes atomics as sequentially consistent, the capacity as at least one (at zero the standard library hands over in a rendezvous), the ordinal as unbounded, and poisoned locks and panics as absent.
- `wait` is a step that changes nothing: what wakes a waiter, and when, does not matter to any statement here.
- `Bus`, `WorkerSession`, `Launching` and the concurrent half of `FactLedger` and `ProfileStore` are step functions on values rather than methods on shared objects, because `publish` need not terminate and because every point between two accesses has to be a state others can move; aliasing and memory layout are not captured.
- TOML parsing and `toml_edit` formatting: documents start as trees, and a file is unreadable, missing, malformed or a tree.
- `validate_toml_document`, `mcp_servers_with_defaults` and the model parser are given predicates, so the bootstrap theorems hold whatever those accept; the bounds in the settings catalog are part of validation and left out with it.
- `Bootstrap`, on values: `resolve` and `resolve_attached` fill only the fields the theorems speak of; `expand_global_mcp` is modelled whole, but which of several failing fields is reported is not.
- Project-root discovery is an input, and path joining is string concatenation with a slash.
- `is_alphabetic`, `is_numeric` and the output of a command are parameters, and the lemmas on expanded texts ask that none of the punctuation counts as either; byte offsets into strings are character offsets here.
- Overlap.OverlapIsSound: one direction only when both patterns hold metacharacters, because a report there means no more than comparable literal prefixes; what is reported then is `Overlap.OverlapOfGlobsIff`, and the statement that is exact about shared targets is the one against a literal.
- `permission_rules_overlap` adds a comparison of tool names to the overlap analysis.
- Errors carry their kind where the code branches on it, and no wording.
- One target per profile store; the global and the project store do not share files. File permissions, directory syncs and the creation of the parent directory are outside the model; the edit of the text is whatever replacement it yields.
- The run machine's effects other than attempts (questions, provider caps, sessions, the recorded result, journal events) are left out, and what guards read from other tables comes with the call.
- A launch stands for an eligible queued run that got a slot: how the queue is ordered and the ceilings counted, a full registry, and the launch errors that start no session are left out. A fresh session id is one never used before; a session counts as live until its work has returned, panics apart; chats that open the same session are absent.
- What a request to stop does to a session is left to the ending its turn comes back with.
- `correlate` is an argument of each call: its session store and the control plane behind it are not modelled, nor is the backlog notice.
- Checkpoints, journaling, the reset a quota refusal names, the denylist prompter and the turn itself: a turn is whatever sequence of questions and one ending it amounts to.
- `SessionInstructions`, providers, login, sockets, the daemon, the scheduler and the terminal interface.
