/**
  The permission-rule parser of agens-config, and the glob syntax it admits in
  a rule's target.
*/
module PermissionRules {
  import opened Wrappers
  import opened Text
  import Glob

  datatype Rule = Rule(tool: string, target: Option<string>)

  // ------------------------------------------------------------- tool names

  predicate IdentifierCharacter(c: char) {
    'a' <= c <= 'z' || '0' <= c <= '9' || c == '_'
  }

  predicate IsAsciiIdentifier(name: string) {
    && name != []
    && 'a' <= name[0] <= 'z'
    && forall i :: 0 <= i < |name| ==> IdentifierCharacter(name[i])
  }

  predicate IsToolAlias(name: string) {
    || (IsAsciiIdentifier(name) && !Contains(name, "__"))
    || (var parts := SplitOnceAt(name, "::");
        && parts.Some?
        && IsAsciiIdentifier(parts.value.0)
        && IsAsciiIdentifier(parts.value.1)
        && !Contains(parts.value.1, "::"))
  }

  predicate IsGroundedToolName(name: string) {
    || name in {"bash", "read", "edit", "write", "list", "search", "webfetch"}
    || IsToolAlias(name)
  }

  // ---------------------------------------------------------------- targets

  predicate IsSeparatorConfusable(c: char) {
    c in {'\\', '\U{2044}', '\U{2215}', '\U{29F5}', '\U{29F6}', '\U{29F7}', '\U{29F8}', '\U{29F9}',
          '\U{2E4A}', '\U{2F03}', '\U{FE68}', '\U{FF0F}', '\U{FF3C}', '\U{1F67C}', '\U{1F67D}'}
  }

  /** A hyphen in a class may stand only between two characters. */
  predicate IsValidCharacterClass(members: string) {
    var start := if members != [] && (members[0] == '!' || members[0] == '^') then 1 else 0;
    && |members| > start
    && forall i :: start <= i < |members| && members[i] == '-' ==> start < i && i + 1 < |members|
  }

  /** From index `i` on the pattern is literal characters and bracketed classes
      with a body, and holds no backslash. */
  predicate BracketedFrom(pattern: string, i: nat)
    requires i <= |pattern|
    decreases |pattern| - i
  {
    if i == |pattern| then true
    else if pattern[i] == '\\' || pattern[i] == ']' then false
    else if pattern[i] == '[' then
      var end := IndexOf(pattern, ']', i + 1);
      && i + 1 < end < |pattern|
      && '[' !in pattern[i + 1..end] && '\\' !in pattern[i + 1..end]
      && BracketedFrom(pattern, end + 1)
    else BracketedFrom(pattern, i + 1)
  }

  /** Every class body from index `i` on is a valid one. */
  predicate ClassesValidFrom(pattern: string, i: nat)
    requires i <= |pattern|
    decreases |pattern| - i
  {
    if i == |pattern| then true
    else if pattern[i] == '[' then
      var end := IndexOf(pattern, ']', i + 1);
      end < |pattern| && IsValidCharacterClass(pattern[i + 1..end]) && ClassesValidFrom(pattern, end + 1)
    else ClassesValidFrom(pattern, i + 1)
  }

  predicate ValidGlob(pattern: string) {
    BracketedFrom(pattern, 0) && ClassesValidFrom(pattern, 0)
  }

  predicate PartValid(part: string) {
    match SplitOnce(part, ']')
    case None => true
    case Some((members, _)) => IsValidCharacterClass(members)
  }

  /** `has_valid_glob_syntax`: one scan for the brackets, one split for the
      bodies between them. */
  method HasValidGlobSyntax(pattern: string) returns (valid: bool)
    ensures valid == ValidGlob(pattern)
  {
    var inClass := false;
    var classContent := false;
    ghost var open := 0;
    for i := 0 to |pattern|
      invariant inClass ==> open < i && pattern[open] == '[' && classContent == (open + 1 < i)
      invariant inClass ==> forall j :: open < j < i ==> pattern[j] != ']' && pattern[j] != '[' && pattern[j] != '\\'
      invariant BracketedFrom(pattern, 0) == BracketedFrom(pattern, if inClass then open else i)
    {
      ghost var end := if inClass then IndexOf(pattern, ']', open + 1) else 0;
      if pattern[i] == '\\' {
        assert inClass && i < end ==> pattern[open + 1..end][i - open - 1] == '\\';
        return false;
      } else if pattern[i] == '[' && !inClass {
        inClass, classContent := true, false;
        open := i;
      } else if pattern[i] == '[' {
        assert i < end ==> pattern[open + 1..end][i - open - 1] == '[';
        return false;
      } else if pattern[i] == ']' && inClass && classContent {
        assert end == i;
        inClass, classContent := false, false;
      } else if pattern[i] == ']' {
        return false;
      } else if inClass {
        classContent := true;
      }
    }
    if inClass {
      return false;
    }
    var parts := Split(pattern, '[');
    valid := forall k :: 1 <= k < |parts| ==> PartValid(parts[k]);
    SplitFindsClasses(pattern, 0);
    assert pattern[0..] == pattern;
  }

  ghost predicate PartsValid(parts: seq<string>) {
    forall k :: 0 <= k < |parts| ==> PartValid(parts[k])
  }

  /** Skipping characters other than `c` leaves the later parts of a split. */
  lemma {:induction false} SplitSkips(text: string, c: char, n: nat)
    requires n <= |text| && c !in text[..n]
    ensures Split(text, c)[1..] == Split(text[n..], c)[1..]
  {
    var i := IndexOf(text, c, 0);
    var j := IndexOf(text[n..], c, 0);
    assert forall k :: 0 <= k < n ==> text[..n][k] == text[k];
    assert forall k :: n <= k < |text| ==> text[n..][k - n] == text[k];
    if i < |text| {
      assert j == i - n;
      assert text[i + 1..] == text[n..][j + 1..];
    }
  }

  lemma SplitAtFirst(text: string, c: char)
    requires text != [] && text[0] == c
    ensures Split(text, c)[1..] == Split(text[1..], c)
  {
    assert IndexOf(text, c, 0) == 0;
    assert Split(text, c) == [text[..0]] + Split(text[1..], c);
  }

  /** Parts of a text that begins with a class body and its bracket. */
  lemma SplitAfterBody(members: string, rest: string)
    requires '[' !in members && ']' !in members
    ensures var inner := members + [']'] + rest;
      && PartValid(Split(inner, '[')[0]) == IsValidCharacterClass(members)
      && Split(inner, '[')[1..] == Split(rest, '[')[1..]
  {
    var inner := members + [']'] + rest;
    assert inner[..|members| + 1] == members + [']'];
    assert inner[|members| + 1..] == rest;
    SplitSkips(inner, '[', |members| + 1);
    FirstPartHoldsBody(inner, members);
  }

  lemma ClassSlices(pattern: string, i: nat, end: nat)
    requires i < end < |pattern| && pattern[end] == ']'
    ensures pattern[i..][1..] == pattern[i + 1..end] + [']'] + pattern[end + 1..]
  {
  }

  /** A class at `i`: its body is in the first part behind it, and the later parts
      are those of what follows the class. */
  lemma SplitAtClass(pattern: string, i: nat)
    requires i < |pattern| && BracketedFrom(pattern, i) && pattern[i] == '['
    ensures var end := IndexOf(pattern, ']', i + 1); var parts := Split(pattern[i..], '[')[1..];
      && parts != []
      && PartValid(parts[0]) == IsValidCharacterClass(pattern[i + 1..end])
      && parts[1..] == Split(pattern[end + 1..], '[')[1..]
  {
    var end := IndexOf(pattern, ']', i + 1);
    SplitAtFirst(pattern[i..], '[');
    ClassSlices(pattern, i, end);
    SplitAfterBody(pattern[i + 1..end], pattern[end + 1..]);
  }

  lemma PartsCons(parts: seq<string>)
    requires parts != []
    ensures PartsValid(parts) == (PartValid(parts[0]) && PartsValid(parts[1..]))
  {
    assert forall k :: 1 <= k < |parts| ==> parts[k] == parts[1..][k - 1];
  }

  /** Between well-placed brackets the parts behind each '[' are the class bodies
      with what follows them. */
  lemma {:induction false} SplitFindsClasses(pattern: string, i: nat)
    requires i <= |pattern| && BracketedFrom(pattern, i)
    ensures PartsValid(Split(pattern[i..], '[')[1..]) == ClassesValidFrom(pattern, i)
    decreases |pattern| - i
  {
    if i == |pattern| {
    } else if pattern[i] != '[' {
      SplitSkips(pattern[i..], '[', 1);
      assert pattern[i..][1..] == pattern[i + 1..];
      SplitFindsClasses(pattern, i + 1);
    } else {
      SplitAtClass(pattern, i);
      PartsCons(Split(pattern[i..], '[')[1..]);
      SplitFindsClasses(pattern, IndexOf(pattern, ']', i + 1) + 1);
    }
  }

  lemma FirstPartHoldsBody(inner: string, members: string)
    requires members + [']'] <= inner && '[' !in members && ']' !in members
    ensures PartValid(Split(inner, '[')[0]) == IsValidCharacterClass(members)
  {
    var open := IndexOf(inner, '[', 0);
    assert forall j :: 0 <= j < |members| ==> inner[j] == (members + [']'])[j] == members[j];
    assert inner[|members|] == (members + [']'])[|members|];
    var part := Split(inner, '[')[0];
    assert part == inner[..open] && open > |members|;
    assert IndexOf(part, ']', 0) == |members|;
    assert part[..|members|] == members;
  }

  /** For an accepted pattern the matcher never finds a class unclosed, and every
      class it reads has a valid body. */
  lemma {:induction false} ValidGlobIsClosed(pattern: string, i: nat)
    requires i <= |pattern| && BracketedFrom(pattern, i) && ClassesValidFrom(pattern, i)
    ensures Glob.Unclosed !in Glob.TokensFrom(pattern, i)
    ensures forall k :: 0 <= k < |Glob.TokensFrom(pattern, i)| && Glob.TokensFrom(pattern, i)[k].Class? ==>
              IsValidCharacterClass(Glob.TokensFrom(pattern, i)[k].members)
    decreases |pattern| - i
  {
    if i < |pattern| {
      var (token, next) := Glob.TokenAt(pattern, i);
      if pattern[i] == '*' {
        assert BracketedFrom(pattern, i + 1) && ClassesValidFrom(pattern, i + 1);
        if next >= i + 2 {
          assert BracketedFrom(pattern, i + 2) && ClassesValidFrom(pattern, i + 2);
        }
      }
      ValidGlobIsClosed(pattern, next);
    }
  }

  lemma {:induction false} TokensStartOutsideClasses(pattern: string, i: nat)
    requires i <= |pattern| && BracketedFrom(pattern, i)
    ensures forall q :: q in Glob.TokenStarts(pattern, i) ==> q <= |pattern| && BracketedFrom(pattern, q)
    decreases |pattern| - i
  {
    if i < |pattern| {
      var next := Glob.TokenAt(pattern, i).1;
      if pattern[i] == '*' && next >= i + 2 {
        assert BracketedFrom(pattern, i + 1) && BracketedFrom(pattern, i + 2);
      }
      TokensStartOutsideClasses(pattern, next);
    }
  }

  /** On an accepted pattern the matcher, wherever it gets with a candidate, stands
      outside every class, and from a bracket it always finds the closing one: it
      never returns for an unclosed class. */
  lemma MatcherMeetsNoUnclosedClass(pattern: string, candidate: string, q: nat)
    requires ValidGlob(pattern) && q in Glob.Visited(pattern, candidate, 0, 0)
    ensures q <= |pattern| && q in Glob.TokenStarts(pattern, 0) && BracketedFrom(pattern, q)
    ensures q < |pattern| && pattern[q] == '[' ==> IndexOf(pattern, ']', q + 1) < |pattern|
  {
    Glob.VisitsTokenStarts(pattern, candidate, 0, 0);
    TokensStartOutsideClasses(pattern, 0);
  }

  predicate IsSafeTargetPattern(pattern: string) {
    && pattern != []
    && (forall i :: 0 <= i < |pattern| ==> !IsSeparatorConfusable(pattern[i]))
    && ".." !in Split(pattern, '/')
    && ValidGlob(pattern)
  }

  // ----------------------------------------------------------------- parsing

  function Grounded(tool: string, target: Option<string>): Option<Rule> {
    if !IsGroundedToolName(tool) || (target.Some? && !IsSafeTargetPattern(target.value)) then None
    else Some(Rule(tool, target))
  }

  /** `parse_permission_rule`. */
  function ParseRule(value: string): Option<Rule> {
    if Trim(value) == [] || Trim(value) != value then None
    else
      match SplitOnce(value, '(')
      case Some((tool, rest)) =>
        if rest == [] || rest[|rest| - 1] != ')' then None
        else
          var target := rest[..|rest| - 1];
          if target == [] || Trim(target) == [] || '(' in target || ')' in target then None
          else Grounded(tool, Some(target))
      case None => if ')' in value then None else Grounded(value, None)
  }

  function Print(rule: Rule): string {
    match rule.target
    case None => rule.tool
    case Some(target) => rule.tool + "(" + target + ")"
  }

  /** What a rule has to be to be written down. */
  predicate WellFormed(rule: Rule) {
    && IsGroundedToolName(rule.tool)
    && (rule.target.Some? ==>
          var target := rule.target.value;
          IsSafeTargetPattern(target) && !Blank(target) && '(' !in target && ')' !in target)
  }

  /** A source and a tool around two colons hold nothing but their characters. */
  lemma QualifiedNameCharacters(source: string, tool: string)
    requires Identifier(source) && Identifier(tool)
    ensures var name := source + "::" + tool;
      && 'a' <= name[0] <= 'z'
      && forall i :: 0 <= i < |name| ==> IdentifierCharacter(name[i]) || name[i] == ':'
  {
    var name := source + "::" + tool;
    assert forall i :: 0 <= i < |name| ==> name[i] in source || name[i] == ':' || name[i] in tool;
  }

  /** A grounded name begins with a letter and holds nothing but identifier
      characters and colons. */
  lemma ToolNameCharacters(name: string)
    requires IsGroundedToolName(name)
    ensures name != [] && 'a' <= name[0] <= 'z'
    ensures forall i :: 0 <= i < |name| ==> IdentifierCharacter(name[i]) || name[i] == ':'
  {
    GroundedIff(name);
    if source, tool :| Identifier(source) && Identifier(tool) && name == source + "::" + tool {
      QualifiedNameCharacters(source, tool);
    }
  }

  lemma PrintSplits(tool: string, target: string)
    requires '(' !in tool
    ensures SplitOnce(tool + "(" + target + ")", '(') == Some((tool, target + ")"))
  {
    var value := tool + "(" + target + ")";
    assert forall i :: 0 <= i < |tool| ==> value[i] == tool[i];
    assert value[|tool|] == '(';
    assert value[..|tool|] == tool && value[|tool| + 1..] == target + ")";
  }

  lemma PrintEnds(rule: Rule)
    requires rule.tool != [] && 'a' <= rule.tool[0] <= 'z'
    requires forall i :: 0 <= i < |rule.tool| ==> !IsWhitespace(rule.tool[i])
    ensures Print(rule) != [] && !IsWhitespace(Print(rule)[0]) && !IsWhitespace(Print(rule)[|Print(rule)| - 1])
  {
    assert Print(rule)[0] == rule.tool[0];
    if rule.target.Some? {
      assert Print(rule)[|Print(rule)| - 1] == ')';
    }
  }

  lemma PrintIsTrimmed(rule: Rule)
    requires IsGroundedToolName(rule.tool)
    ensures Trim(Print(rule)) == Print(rule) != []
    ensures '(' !in rule.tool && ')' !in rule.tool
  {
    ToolNameCharacters(rule.tool);
    PrintEnds(rule);
    TrimExactly(Print(rule));
  }

  lemma PrintParses(rule: Rule)
    requires WellFormed(rule)
    ensures ParseRule(Print(rule)) == Some(rule)
  {
    PrintIsTrimmed(rule);
    match rule.target
    case Some(target) =>
      PrintSplits(rule.tool, target);
      TrimExactly(target);
      assert (target + ")")[..|target|] == target;
    case None =>
      assert IndexOf(rule.tool, '(', 0) == |rule.tool|;
  }

  lemma TargetPrints(value: string, tool: string, rest: string)
    requires SplitOnce(value, '(') == Some((tool, rest)) && rest != [] && rest[|rest| - 1] == ')'
    ensures tool + "(" + rest[..|rest| - 1] + ")" == value
  {
    var open := IndexOf(value, '(', 0);
    assert value == value[..open] + ['('] + value[open + 1..];
    assert rest == rest[..|rest| - 1] + [')'];
  }

  lemma ParsePrints(value: string)
    requires ParseRule(value).Some?
    ensures WellFormed(ParseRule(value).value) && Print(ParseRule(value).value) == value
  {
    match SplitOnce(value, '(')
    case Some((tool, rest)) =>
      TargetPrints(value, tool, rest);
      TrimExactly(rest[..|rest| - 1]);
    case None =>
  }

  /** Printing and parsing are inverse: a text is accepted as a rule exactly
      when the rule is well formed and prints to that very text. */
  lemma ParsePrint(value: string, rule: Rule)
    ensures ParseRule(value) == Some(rule) <==> WellFormed(rule) && value == Print(rule)
  {
    if WellFormed(rule) {
      PrintParses(rule);
    }
    if ParseRule(value).Some? {
      ParsePrints(value);
    }
  }

  // ------------------------------------------------ which texts are accepted as rules

  /** A lower-case letter, and then lower-case letters, digits and underscores. */
  predicate Identifier(text: string) {
    && text != "" && 'a' <= text[0] <= 'z'
    && forall i :: 0 <= i < |text| ==> 'a' <= text[i] <= 'z' || '0' <= text[i] <= '9' || text[i] == '_'
  }

  /** A tool of its own, an alias without a double underscore, or the tool of a
      source. */
  ghost predicate ToolText(text: string) {
    || text in {"bash", "read", "edit", "write", "list", "search", "webfetch"}
    || (Identifier(text) && !Contains(text, "__"))
    || exists source, tool :: Identifier(source) && Identifier(tool) && text == source + "::" + tool
  }

  /** A parent segment: alone, in front, at the end or in between. */
  predicate ClimbsOut(target: string) {
    || target == ".."
    || "../" <= target
    || (|target| >= 3 && target[|target| - 3..] == "/..")
    || Contains(target, "/../")
  }

  /** A backslash, or a character that looks like a slash or one. */
  predicate LooksLikeSeparator(c: char) {
    || c == '\\' || c == '\U{2044}' || c == '\U{2215}' || '\U{29F5}' <= c <= '\U{29F9}' || c == '\U{2E4A}'
    || c == '\U{2F03}' || c == '\U{FE68}' || c == '\U{FF0F}' || c == '\U{FF3C}' || '\U{1F67C}' <= c <= '\U{1F67D}'
  }

  lemma SourceAndTool(source: string, tool: string)
    requires Identifier(source) && Identifier(tool)
    ensures SplitOnceAt(source + "::" + tool, "::") == Some((source, tool))
    ensures !Contains(tool, "::")
  {
    var text := source + "::" + tool;
    FindExactly(text, "::", 0);
    assert text[|source|..] == "::" + tool;
    forall j | 0 <= j < |source|
      ensures !("::" <= text[j..])
    {
      assert text[j..][0] == source[j] != ':';
    }
    assert text[..|source|] == source && text[|source| + 2..] == tool;
    NoColonsIn(tool);
  }

  lemma NoColonsIn(text: string)
    requires ':' !in text
    ensures !Contains(text, "::")
  {
    forall i | 0 <= i <= |text| - 2
      ensures text[i..][..2] != "::"
    {
      assert text[i..][..2][0] == text[i];
    }
  }

  lemma SplitJoins(name: string)
    requires SplitOnceAt(name, "::").Some?
    ensures var (source, tool) := SplitOnceAt(name, "::").value; name == source + "::" + tool
  {
    FindExactly(name, "::", 0);
    var i := Find(name, "::", 0).value;
    assert name[i..] == "::" + name[i + 2..];
    assert name == name[..i] + name[i..];
  }

  /** The tools a rule may name are exactly these. */
  lemma GroundedIff(name: string)
    ensures IsGroundedToolName(name) <==> ToolText(name)
  {
    if source, tool :| Identifier(source) && Identifier(tool) && name == source + "::" + tool {
      SourceAndTool(source, tool);
    }
    if IsToolAlias(name) && !(IsAsciiIdentifier(name) && !Contains(name, "__")) {
      SplitJoins(name);
      var (source, tool) := SplitOnceAt(name, "::").value;
      assert Identifier(source) && Identifier(tool);
    }
  }

  lemma BeginsUp(first: string, rest: string)
    requires '/' !in first
    ensures "../" <= first + "/" + rest <==> first == ".."
  {
    var target := first + "/" + rest;
    var n := |first|;
    assert target[n] == '/' && forall i :: 0 <= i < n ==> target[i] == first[i] != '/';
    if "../" <= target {
      assert target[0] == '.' && target[1] == '.' && target[2] == '/';
      assert n == 2 && first == "..";
    }
    if first == ".." {
      assert target[..3] == "../";
    }
  }

  lemma ClimbsBehindSlash(target: string, first: string, rest: string)
    requires target == first + "/" + rest && '/' !in first
    ensures ClimbsOut(target) <==> first == ".." || ClimbsOut(rest)
  {
    assert target[|first|] == '/' && |target| == |first| + 1 + |rest|;
    BeginsUp(first, rest);
    SlashDotsEnd(first, rest);
    SlashDotsInside(first, rest);
  }

  lemma EndsInDots(target: string)
    requires |target| >= 3
    ensures target[|target| - 3..] == "/.." ==> target[|target| - 3] == '/'
  {
    assert target[|target| - 3..][0] == target[|target| - 3];
  }

  lemma SlashDotsEnd(first: string, rest: string)
    requires '/' !in first
    ensures var target := first + "/" + rest;
      (|target| >= 3 && target[|target| - 3..] == "/..")
      <==> rest == ".." || (|rest| >= 3 && rest[|rest| - 3..] == "/..")
  {
    var target := first + "/" + rest;
    var m := |target| - 3;
    assert forall k :: 0 <= k < |first| ==> target[k] == first[k] != '/';
    assert target[|first|] == '/';
    if |rest| >= 3 {
      assert target[m..] == rest[|rest| - 3..];
    } else if |rest| == 2 {
      assert target[m..] == "/" + rest;
      assert ("/" + rest)[1..] == rest;
    } else if m >= 0 {
      EndsInDots(target);
    }
  }

  /** A parent segment between two slashes begins here. */
  predicate ParentAt(text: string, i: int) {
    0 <= i && i + 4 <= |text| && text[i] == '/' && text[i + 1] == '.' && text[i + 2] == '.' && text[i + 3] == '/'
  }

  lemma ParentSlice(text: string, i: nat)
    requires i + 4 <= |text|
    ensures text[i..][..4] == "/../" <==> ParentAt(text, i)
  {
    var slice := text[i..][..4];
    assert slice[0] == text[i] && slice[1] == text[i + 1] && slice[2] == text[i + 2] && slice[3] == text[i + 3];
  }

  lemma HoldsParentIff(text: string)
    ensures Contains(text, "/../") <==> exists i :: ParentAt(text, i)
  {
    forall i: nat | i + 4 <= |text|
      ensures text[i..][..4] == "/../" <==> ParentAt(text, i)
    {
      ParentSlice(text, i);
    }
  }

  lemma ParentBehindSlash(first: string, rest: string, i: int)
    requires '/' !in first
    ensures ParentAt(first + "/" + rest, i) <==> (i == |first| && "../" <= rest) || ParentAt(rest, i - |first| - 1)
  {
    var target := first + "/" + rest;
    var n := |first|;
    assert forall k :: 0 <= k < n ==> target[k] == first[k] != '/';
    assert target[n] == '/' && forall k :: 0 <= k < |rest| ==> target[n + 1 + k] == rest[k];
    assert "../" <= rest <==> |rest| >= 3 && rest[0] == '.' && rest[1] == '.' && rest[2] == '/';
  }

  lemma SlashDotsInside(first: string, rest: string)
    requires '/' !in first
    ensures Contains(first + "/" + rest, "/../") <==> "../" <= rest || Contains(rest, "/../")
  {
    var target := first + "/" + rest;
    var n := |first|;
    HoldsParentIff(target);
    HoldsParentIff(rest);
    ParentBehindSlash(first, rest, n);
    if i :| ParentAt(target, i) {
      ParentBehindSlash(first, rest, i);
    }
    if i :| ParentAt(rest, i) {
      ParentBehindSlash(first, rest, i + n + 1);
      assert ParentAt(target, i + n + 1);
    }
  }

  /** The parts of a split, told by the first slash and then the next: one of them
      leads up. */
  predicate Climbs(target: string)
    decreases |target|
  {
    var i := IndexOf(target, '/', 0);
    if i == |target| then target == ".." else target[..i] == ".." || Climbs(target[i + 1..])
  }

  lemma InCons(first: string, rest: seq<string>, part: string)
    ensures part in [first] + rest <==> part == first || part in rest
  {
  }

  lemma {:induction false} SplitClimbs(target: string)
    ensures ".." in Split(target, '/') <==> Climbs(target)
    decreases |target|
  {
    var i := IndexOf(target, '/', 0);
    if i < |target| {
      SplitClimbs(target[i + 1..]);
      InCons(target[..i], Split(target[i + 1..], '/'), "..");
    }
  }

  lemma CutAt(target: string, i: nat)
    requires i < |target| && target[i] == '/'
    ensures target == target[..i] + "/" + target[i + 1..]
  {
  }

  lemma {:induction false} ClimbsIff(target: string)
    ensures Climbs(target) <==> ClimbsOut(target)
    decreases |target|
  {
    var i := IndexOf(target, '/', 0);
    if i == |target| {
      NoSlashNoClimb(target);
    } else {
      CutAt(target, i);
      ClimbsIff(target[i + 1..]);
      ClimbsBehindSlash(target, target[..i], target[i + 1..]);
    }
  }

  /** Splitting at slashes finds a parent segment exactly where there is one. */
  lemma ClimbsOutIff(target: string)
    ensures ".." in Split(target, '/') <==> ClimbsOut(target)
  {
    SplitClimbs(target);
    ClimbsIff(target);
  }

  lemma SlashInside(target: string)
    ensures Contains(target, "/../") ==> '/' in target
  {
    if Contains(target, "/../") {
      var i :| 0 <= i <= |target| - 4 && target[i..][..4] == "/../";
      assert target[i] == target[i..][..4][0];
    }
  }

  lemma SlashAtEnds(target: string)
    ensures "../" <= target ==> '/' in target
    ensures |target| >= 3 && target[|target| - 3..] == "/.." ==> '/' in target
  {
    assert "../" <= target ==> target[2] == "../"[2];
    assert |target| >= 3 ==> target[|target| - 3..][0] == target[|target| - 3];
  }

  lemma NoSlashNoClimb(target: string)
    requires '/' !in target
    ensures ClimbsOut(target) <==> target == ".."
  {
    SlashInside(target);
    SlashAtEnds(target);
  }

  // -------------------------------------------------------- the brackets of a target

  /** What may stand between brackets: no bracket or backslash, and behind the sign
      that negates it something that neither begins nor ends with a hyphen. */
  predicate ClassText(body: string) {
    var core := if body != "" && (body[0] == '!' || body[0] == '^') then body[1..] else body;
    && '[' !in body && ']' !in body && '\\' !in body
    && core != "" && core[0] != '-' && core[|core| - 1] != '-'
  }

  /** It is a class body exactly if hyphens stand between characters only. */
  predicate HyphensInside(core: string) {
    core != "" && forall k :: 0 <= k < |core| && core[k] == '-' ==> 0 < k < |core| - 1
  }

  lemma ClassBodyIff(body: string)
    requires '[' !in body && ']' !in body && '\\' !in body
    ensures IsValidCharacterClass(body) <==> ClassText(body)
  {
    var start := if body != "" && (body[0] == '!' || body[0] == '^') then 1 else 0;
    var core := body[start..];
    assert forall k :: 0 <= k < |core| ==> core[k] == body[start + k];
    assert HyphensInside(core) <==> core != "" && core[0] != '-' && core[|core| - 1] != '-';
    if IsValidCharacterClass(body) {
      assert body[start] != '-' && body[|body| - 1] != '-';
    }
  }

  lemma {:induction false} BracketedShift(pattern: string, i: nat, j: nat)
    requires i + j <= |pattern|
    ensures BracketedFrom(pattern, i + j) == BracketedFrom(pattern[i..], j)
    ensures ClassesValidFrom(pattern, i + j) == ClassesValidFrom(pattern[i..], j)
    decreases |pattern| - i - j
  {
    if i + j < |pattern| {
      var rest := pattern[i..];
      assert rest[j] == pattern[i + j];
      if pattern[i + j] == '[' {
        ClosingShift(pattern, i, j + 1);
        var end := IndexOf(rest, ']', j + 1);
        if end < |rest| {
          assert rest[j + 1..end] == pattern[i + j + 1..i + end];
          BracketedShift(pattern, i, end + 1);
        }
      } else {
        BracketedShift(pattern, i, j + 1);
      }
    }
  }

  lemma ClosingShift(text: string, i: nat, j: nat)
    requires i + j <= |text|
    ensures IndexOf(text, ']', i + j) == i + IndexOf(text[i..], ']', j)
  {
    var rest := text[i..];
    var k := IndexOf(rest, ']', j);
    assert forall m :: 0 <= m < |rest| ==> rest[m] == text[i + m];
    assert forall m :: i + j <= m < i + k ==> text[m] == rest[m - i];
  }

  /** Neither bracket nor backslash. */
  predicate Unbracketed(text: string) {
    '[' !in text && ']' !in text && '\\' !in text
  }

  /** A stretch of other characters in front changes nothing. */
  lemma {:induction false} StretchInFront(before: string, pattern: string)
    requires Unbracketed(before)
    ensures ValidGlob(before + pattern) <==> ValidGlob(pattern)
    decreases |before|
  {
    if before == "" {
      assert before + pattern == pattern;
    } else {
      var text := before + pattern;
      assert text[0] == before[0] && text[1..] == before[1..] + pattern;
      BracketedShift(text, 1, 0);
      StretchInFront(before[1..], pattern);
    }
  }

  /** A text of other characters only is valid. */
  lemma UnbracketedIsValid(text: string)
    requires Unbracketed(text)
    ensures ValidGlob(text)
  {
    StretchInFront(text, "");
    assert text + "" == text;
  }

  /** A pair of brackets is valid exactly if what stands between them is a class,
      and what follows is valid. */
  lemma ClassInFront(body: string, after: string)
    requires ']' !in body
    ensures ValidGlob("[" + body + "]" + after) <==> ClassText(body) && ValidGlob(after)
  {
    var text := "[" + body + "]" + after;
    var end := |body| + 1;
    assert text[0] == '[' && text[end] == ']';
    assert forall j :: 1 <= j < end ==> text[j] == body[j - 1];
    assert IndexOf(text, ']', 1) == end;
    assert text[1..end] == body && text[end + 1..] == after;
    BracketedShift(text, end + 1, 0);
    if '[' !in body && '\\' !in body {
      ClassBodyIff(body);
    }
  }

  /** A bracket that is never closed, a closing one by itself, and a backslash are
      not valid. With the lemmas above this says of every text whether it is. */
  lemma StrayCharacters(text: string, after: string)
    requires ']' !in text
    ensures !ValidGlob("[" + text) && !ValidGlob("]" + after) && !ValidGlob("\\" + after)
  {
    var open := "[" + text;
    assert forall j :: 1 <= j < |open| ==> open[j] == text[j - 1];
    assert IndexOf(open, ']', 1) == |open|;
    assert ("]" + after)[0] == ']' && ("\\" + after)[0] == '\\';
  }

  // ---------------------------------------------------------------- what is accepted

  /** A target that climbs nowhere and hides no separator. */
  predicate TargetText(target: string) {
    && !Blank(target) && '(' !in target && ')' !in target
    && !ClimbsOut(target)
    && (forall i :: 0 <= i < |target| ==> !LooksLikeSeparator(target[i]))
    && ValidGlob(target)
  }

  lemma SafeIff(target: string)
    requires !Blank(target)
    ensures IsSafeTargetPattern(target)
            <==> !ClimbsOut(target) && (forall i :: 0 <= i < |target| ==> !LooksLikeSeparator(target[i]))
                 && ValidGlob(target)
  {
    ClimbsOutIff(target);
    assert forall c :: IsSeparatorConfusable(c) <==> LooksLikeSeparator(c);
  }

  /** A rule is accepted exactly if it names a tool of these, and a target, if any,
      that climbs out nowhere, hides no separator, and is a valid pattern. */
  lemma AcceptedIff(value: string, rule: Rule)
    ensures ParseRule(value) == Some(rule)
            <==> ToolText(rule.tool)
                 && (rule.target.Some? ==> TargetText(rule.target.value))
                 && value == (if rule.target.Some? then rule.tool + "(" + rule.target.value + ")" else rule.tool)
  {
    ParsePrint(value, rule);
    GroundedIff(rule.tool);
    if rule.target.Some? && !Blank(rule.target.value) {
      SafeIff(rule.target.value);
    }
  }

  /** Behind a tool of these, every target that is not blank, holds no parentheses,
      brackets or separators in disguise, and has no parent segment, is accepted. */
  lemma PlainTargetIsAccepted(tool: string, target: string)
    requires ToolText(tool) && !Blank(target) && '(' !in target && ')' !in target && Unbracketed(target)
    requires forall i :: 0 <= i < |target| ==> !LooksLikeSeparator(target[i])
    requires !ClimbsOut(target)
    ensures ParseRule(tool + "(" + target + ")") == Some(Rule(tool, Some(target)))
  {
    UnbracketedIsValid(target);
    AcceptedIff(tool + "(" + target + ")", Rule(tool, Some(target)));
  }
}
