/**
  The glob matcher of agens-config, and the language it accepts.

  The matcher walks pattern and candidate by index. The language is stated on
  the pattern's tokens: a text belongs to it when it can be cut into one part per
  token, each part admitted by its token alone.
*/
module Glob {
  import opened Text

  datatype Token =
    | Literal(character: char)
    | AnyCharacter
    | Class(members: string)
    | Star
    | GlobStar
    | GlobStarDirectory
    | Unclosed

  // ------------------------------------------------------------------ classes

  /** The inclusive ranges of a class body: `a-z` is one range, any other
      character the range of itself. */
  function Ranges(members: string): seq<(char, char)>
    decreases |members|
  {
    if members == [] then []
    else if 2 < |members| && members[1] == '-' then [(members[0], members[2])] + Ranges(members[3..])
    else [(members[0], members[0])] + Ranges(members[1..])
  }

  predicate InSomeRange(ranges: seq<(char, char)>, c: char) {
    exists k :: 0 <= k < |ranges| && ranges[k].0 <= c <= ranges[k].1
  }

  predicate Negated(body: string) {
    body != [] && (body[0] == '!' || body[0] == '^')
  }

  /** A class admits the characters of its ranges, or the others if negated. */
  predicate ClassAdmits(body: string, c: char) {
    if Negated(body) then !InSomeRange(Ranges(body[1..]), c) else InSomeRange(Ranges(body), c)
  }

  /** `glob_class_matches`: the scan that decides it. */
  method ClassMatches(body: string, candidate: char) returns (answer: bool)
    ensures answer == ClassAdmits(body, candidate)
  {
    var negated := Negated(body);
    var characters := if negated then body[1..] else body;
    var index := 0;
    var matched := false;
    while index < |characters|
      invariant 0 <= index <= |characters|
      invariant InSomeRange(Ranges(characters), candidate)
                == (matched || InSomeRange(Ranges(characters[index..]), candidate))
    {
      var rest := characters[index..];
      if index + 2 < |characters| && characters[index + 1] == '-' {
        RangesCons((rest[0], rest[2]), rest[3..], candidate);
        assert rest[3..] == characters[index + 3..];
        matched := matched || characters[index] <= candidate <= characters[index + 2];
        index := index + 3;
      } else {
        RangesCons((rest[0], rest[0]), rest[1..], candidate);
        assert rest[1..] == characters[index + 1..];
        matched := matched || characters[index] == candidate;
        index := index + 1;
      }
    }
    answer := matched != negated;
  }

  lemma RangesCons(range: (char, char), rest: string, c: char)
    ensures InSomeRange([range] + Ranges(rest), c) <==> range.0 <= c <= range.1 || InSomeRange(Ranges(rest), c)
  {
    var all := [range] + Ranges(rest);
    if InSomeRange(Ranges(rest), c) {
      var k :| 0 <= k < |Ranges(rest)| && Ranges(rest)[k].0 <= c <= Ranges(rest)[k].1;
      assert all[k + 1] == Ranges(rest)[k];
    }
    if range.0 <= c <= range.1 {
      assert all[0] == range;
    }
  }

  /** What a class says of a character, spelled out. Behind a negation sign nothing
      is listed; a character put in front excludes itself, and two with a hyphen
      between them all that lies from one to the other; the other sign says the
      same, and without a sign the opposite is said. */
  lemma ClassSpelledOut(lo: char, hi: char, rest: string, c: char)
    ensures ClassAdmits("!", c)
    ensures ClassAdmits("!" + [lo, '-', hi] + rest, c) <==> !(lo <= c <= hi) && ClassAdmits("!" + rest, c)
    ensures !(|rest| > 1 && rest[0] == '-')
            ==> (ClassAdmits("!" + [lo] + rest, c) <==> c != lo && ClassAdmits("!" + rest, c))
    ensures ClassAdmits("^" + rest, c) <==> ClassAdmits("!" + rest, c)
    ensures rest == "" || (rest[0] != '!' && rest[0] != '^')
            ==> (ClassAdmits(rest, c) <==> !ClassAdmits("!" + rest, c))
  {
    assert ("!" + rest)[1..] == rest && ("^" + rest)[1..] == rest;
    var range := [lo, '-', hi] + rest;
    assert range[3..] == rest && ("!" + [lo, '-', hi] + rest)[1..] == range;
    RangesCons((lo, hi), rest, c);
    var one := [lo] + rest;
    assert one[1..] == rest && ("!" + [lo] + rest)[1..] == one;
    RangesCons((lo, lo), rest, c);
  }

  /** Without hyphens the body is the list of what it admits. */
  lemma {:induction false} ClassListsCharacters(members: string, c: char)
    requires '-' !in members
    ensures ClassAdmits("!" + members, c) <==> c !in members
  {
    if members != [] {
      ClassListsCharacters(members[1..], c);
      ClassSpelledOut(members[0], c, members[1..], c);
      assert "!" + [members[0]] + members[1..] == "!" + members;
    } else {
      ClassSpelledOut(c, c, members, c);
    }
  }

  // ------------------------------------------------------------------ matcher

  predicate GlobMatches(pattern: string, candidate: string) {
    MatchesFrom(pattern, candidate, 0, 0)
  }

  /** `glob_matches_from`. Every recursive call is further along the pattern,
      and no call reads past the candidate. */
  predicate MatchesFrom(pattern: string, candidate: string, p: nat, c: nat)
    requires p <= |pattern| && c <= |candidate|
    decreases |pattern| - p, 1
  {
    if p == |pattern| then c == |candidate|
    else if pattern[p] == '*' then
      var crosses := p + 1 < |pattern| && pattern[p + 1] == '*';
      if crosses && p + 2 < |pattern| && pattern[p + 2] == '/' then
        DirectoryMatches(pattern, candidate, p + 3, c)
      else
        var next := p + (if crosses then 1 else 0) + 1;
        var maximum := if crosses then |candidate| else IndexOf(candidate, '/', c);
        StretchMatches(pattern, candidate, next, c, maximum)
    else if pattern[p] == '?' then
      && c < |candidate|
      && candidate[c] != '/'
      && MatchesFrom(pattern, candidate, p + 1, c + 1)
    else if pattern[p] == '[' then
      var end := IndexOf(pattern, ']', p + 1);
      && end < |pattern|
      && c < |candidate|
      && candidate[c] != '/'
      && ClassAdmits(pattern[p + 1..end], candidate[c])
      && MatchesFrom(pattern, candidate, end + 1, c + 1)
    else
      && c < |candidate|
      && candidate[c] == pattern[p]
      && MatchesFrom(pattern, candidate, p + 1, c + 1)
  }

  /** Some stretch up to `maximum`, and the pattern from `p` on behind it. */
  predicate StretchMatches(pattern: string, candidate: string, p: nat, c: nat, maximum: nat)
    requires p <= |pattern| && c <= maximum <= |candidate|
    decreases |pattern| - p, 2
  {
    exists n :: c <= n <= maximum && MatchesFrom(pattern, candidate, p, n)
  }

  /** `globstar_directory_matches`: here, or just behind any later separator. */
  predicate DirectoryMatches(pattern: string, candidate: string, p: nat, c: nat)
    requires p <= |pattern| && c <= |candidate|
    decreases |pattern| - p, 2
  {
    || MatchesFrom(pattern, candidate, p, c)
    || exists n :: c <= n < |candidate| && candidate[n] == '/' && MatchesFrom(pattern, candidate, p, n + 1)
  }

  /** Every pattern index the matcher recurses on from here, branch by branch as
      MatchesFrom does; stopping at a first success only visits fewer. */
  ghost function Visited(pattern: string, candidate: string, p: nat, c: nat): set<nat>
    requires p <= |pattern| && c <= |candidate|
    decreases |pattern| - p
  {
    {p} +
    if p == |pattern| then {}
    else if pattern[p] == '*' then
      var crosses := p + 1 < |pattern| && pattern[p + 1] == '*';
      var directory := crosses && p + 2 < |pattern| && pattern[p + 2] == '/';
      var next := if directory then p + 3 else if crosses then p + 2 else p + 1;
      var maximum := if crosses then |candidate| else IndexOf(candidate, '/', c);
      set n, q | c <= n <= maximum && (directory ==> n == c || candidate[n - 1] == '/')
                 && q in Visited(pattern, candidate, next, n) :: q
    else if pattern[p] == '?' then
      if c < |candidate| && candidate[c] != '/' then Visited(pattern, candidate, p + 1, c + 1) else {}
    else if pattern[p] == '[' then
      var end := IndexOf(pattern, ']', p + 1);
      if end < |pattern| && c < |candidate| && candidate[c] != '/' && ClassAdmits(pattern[p + 1..end], candidate[c])
      then Visited(pattern, candidate, end + 1, c + 1) else {}
    else
      if c < |candidate| && candidate[c] == pattern[p] then Visited(pattern, candidate, p + 1, c + 1) else {}
  }

  // ----------------------------------------------------------------- language

  /** The token that opens at `p`, and where the next one does. */
  function TokenAt(pattern: string, p: nat): (r: (Token, nat))
    requires p < |pattern|
    ensures p < r.1 <= |pattern|
  {
    if pattern[p] == '*' then
      if p + 1 < |pattern| && pattern[p + 1] == '*' then
        if p + 2 < |pattern| && pattern[p + 2] == '/' then (GlobStarDirectory, p + 3) else (GlobStar, p + 2)
      else (Star, p + 1)
    else if pattern[p] == '?' then (AnyCharacter, p + 1)
    else if pattern[p] == '[' then
      var end := IndexOf(pattern, ']', p + 1);
      if end == |pattern| then (Unclosed, end) else (Class(pattern[p + 1..end]), end + 1)
    else (Literal(pattern[p]), p + 1)
  }

  function TokensFrom(pattern: string, p: nat): seq<Token>
    requires p <= |pattern|
    decreases |pattern| - p
  {
    if p == |pattern| then [] else
      var (token, next) := TokenAt(pattern, p);
      [token] + TokensFrom(pattern, next)
  }

  /** Where the tokens from `p` on begin, the end of the pattern included. */
  function TokenStarts(pattern: string, p: nat): set<nat>
    requires p <= |pattern|
    decreases |pattern| - p
  {
    {p} + if p == |pattern| then {} else TokenStarts(pattern, TokenAt(pattern, p).1)
  }

  /** The matcher recurses on token starts only. */
  lemma {:induction false} VisitsTokenStarts(pattern: string, candidate: string, p: nat, c: nat)
    requires p <= |pattern| && c <= |candidate|
    ensures Visited(pattern, candidate, p, c) <= TokenStarts(pattern, p)
    decreases |pattern| - p
  {
    if p < |pattern| {
      var next := TokenAt(pattern, p).1;
      forall n | c <= n <= |candidate|
        ensures Visited(pattern, candidate, next, n) <= TokenStarts(pattern, next)
      {
        VisitsTokenStarts(pattern, candidate, next, n);
      }
    }
  }

  /** Where the matcher accepts it has got to the end of the pattern. */
  lemma {:induction false} MatchVisitsTheEnd(pattern: string, candidate: string, p: nat, c: nat)
    requires p <= |pattern| && c <= |candidate| && MatchesFrom(pattern, candidate, p, c)
    ensures |pattern| in Visited(pattern, candidate, p, c)
    decreases |pattern| - p
  {
    if p < |pattern| {
      var (token, next) := TokenAt(pattern, p);
      MatcherStep(pattern, candidate, p, c);
      var n :| c <= n <= |candidate| && Admits(token, candidate[c..n]) && MatchesFrom(pattern, candidate, next, n);
      MatchVisitsTheEnd(pattern, candidate, next, n);
      if token.Star? {
        AdmitsStar(candidate, c, n);
      } else if token.GlobStarDirectory? {
        AdmitsDirectory(candidate, c, n);
      } else if !token.GlobStar? {
        AdmitsOne(token, candidate, c, n);
      }
    }
  }

  function Tokenise(pattern: string): seq<Token> {
    TokensFrom(pattern, 0)
  }

  /** What one token stands for on its own. */
  predicate Admits(token: Token, part: string) {
    match token
    case Literal(c) => part == [c]
    case AnyCharacter => |part| == 1 && part[0] != '/'
    case Class(members) => |part| == 1 && part[0] != '/' && ClassAdmits(members, part[0])
    case Star => '/' !in part
    case GlobStar => true
    case GlobStarDirectory => part == [] || part[|part| - 1] == '/'
    case Unclosed => false
  }

  ghost predicate CutsInto(tokens: seq<Token>, text: string, parts: seq<string>) {
    && |parts| == |tokens|
    && Concat(parts) == text
    && forall i :: 0 <= i < |tokens| ==> Admits(tokens[i], parts[i])
  }

  /** The text can be cut into one admitted part per token. */
  ghost predicate InLanguage(tokens: seq<Token>, text: string) {
    exists parts :: CutsInto(tokens, text, parts)
  }

  /** The first part may be any admitted prefix whose rest is in the rest's
      language. */
  lemma InLanguageCons(token: Token, tokens: seq<Token>, text: string)
    ensures InLanguage([token] + tokens, text)
            <==> exists k :: 0 <= k <= |text| && Admits(token, text[..k]) && InLanguage(tokens, text[k..])
  {
    var all := [token] + tokens;
    if InLanguage(all, text) {
      var parts :| CutsInto(all, text, parts);
      var k := |parts[0]|;
      assert text[..k] == parts[0] && text[k..] == Concat(parts[1..]);
      assert Admits(all[0], parts[0]);
      assert forall i :: 0 <= i < |tokens| ==> tokens[i] == all[i + 1] && parts[1..][i] == parts[i + 1];
      assert CutsInto(tokens, text[k..], parts[1..]);
    }
    if k :| 0 <= k <= |text| && Admits(token, text[..k]) && InLanguage(tokens, text[k..]) {
      var rest :| CutsInto(tokens, text[k..], rest);
      var parts := [text[..k]] + rest;
      assert parts[1..] == rest && text[..k] + text[k..] == text;
      assert CutsInto(all, text, parts);
    }
  }

  lemma InLanguageNil(text: string)
    ensures InLanguage([], text) <==> text == []
  {
    if text == [] {
      assert CutsInto([], text, []);
    }
  }

  /** InLanguageCons, read at position `c` of a longer text. */
  lemma LanguageFrom(token: Token, tokens: seq<Token>, text: string, c: nat)
    requires c <= |text|
    ensures InLanguage([token] + tokens, text[c..])
            <==> exists n :: c <= n <= |text| && Admits(token, text[c..n]) && InLanguage(tokens, text[n..])
  {
    InLanguageCons(token, tokens, text[c..]);
    forall k | 0 <= k <= |text| - c
      ensures text[c..][..k] == text[c..c + k] && text[c..][k..] == text[c + k..]
    {
    }
    if n :| c <= n <= |text| && Admits(token, text[c..n]) && InLanguage(tokens, text[n..]) {
      var k := n - c;
      assert text[c..][..k] == text[c..n] && text[c..][k..] == text[n..];
    }
  }

  lemma AdmitsOne(token: Token, text: string, c: nat, n: nat)
    requires c <= n <= |text|
    requires token.Literal? || token.AnyCharacter? || token.Class?
    ensures Admits(token, text[c..n]) <==> n == c + 1 && Admits(token, [text[c]])
  {
    if n == c + 1 {
      assert text[c..n] == [text[c]];
    }
  }

  lemma AdmitsStar(text: string, c: nat, n: nat)
    requires c <= n <= |text|
    ensures Admits(Star, text[c..n]) <==> n <= IndexOf(text, '/', c)
  {
    var slash := IndexOf(text, '/', c);
    if slash < n {
      assert text[c..n][slash - c] == '/';
    }
  }

  lemma AdmitsDirectory(text: string, c: nat, n: nat)
    requires c <= n <= |text|
    ensures Admits(GlobStarDirectory, text[c..n]) <==> n == c || text[n - 1] == '/'
  {
    if c < n {
      assert text[c..n][n - c - 1] == text[n - 1];
    }
  }

  /** One unfolding of the matcher takes one part the token at `p` admits. */
  lemma MatcherStep(pattern: string, candidate: string, p: nat, c: nat)
    requires p < |pattern| && c <= |candidate|
    ensures var (token, next) := TokenAt(pattern, p);
      MatchesFrom(pattern, candidate, p, c)
      <==> exists n ::
             c <= n <= |candidate| && Admits(token, candidate[c..n]) && MatchesFrom(pattern, candidate, next, n)
  {
    var (token, next) := TokenAt(pattern, p);
    if token.Star? || token.GlobStar? {
      var maximum := if token.GlobStar? then |candidate| else IndexOf(candidate, '/', c);
      forall n | c <= n <= |candidate|
        ensures Admits(token, candidate[c..n]) <==> n <= maximum
      {
        AdmitsStar(candidate, c, n);
      }
      assert MatchesFrom(pattern, candidate, p, c) <==> StretchMatches(pattern, candidate, next, c, maximum);
    } else if token.GlobStarDirectory? {
      forall n | c <= n <= |candidate|
        ensures Admits(token, candidate[c..n]) <==> n == c || candidate[n - 1] == '/'
      {
        AdmitsDirectory(candidate, c, n);
      }
      DirectoryByEnd(pattern, candidate, next, c);
    } else if !token.Unclosed? {
      forall n | c <= n <= |candidate|
        ensures Admits(token, candidate[c..n]) <==> n == c + 1 && Admits(token, [candidate[c]])
      {
        AdmitsOne(token, candidate, c, n);
      }
    }
  }

  lemma DirectoryByEnd(pattern: string, candidate: string, p: nat, c: nat)
    requires p <= |pattern| && c <= |candidate|
    ensures DirectoryMatches(pattern, candidate, p, c)
            <==> exists n ::
                   c <= n <= |candidate| && (n == c || candidate[n - 1] == '/') && MatchesFrom(pattern, candidate, p, n)
  {
    if DirectoryMatches(pattern, candidate, p, c) {
      if MatchesFrom(pattern, candidate, p, c) {
        EndsAt(pattern, candidate, p, c, c);
      } else {
        var m :| c <= m < |candidate| && candidate[m] == '/' && MatchesFrom(pattern, candidate, p, m + 1);
        EndsAt(pattern, candidate, p, c, m + 1);
      }
    }
    if n :| c <= n <= |candidate| && (n == c || candidate[n - 1] == '/') && MatchesFrom(pattern, candidate, p, n) {
      if n != c {
        var m := n - 1;
        assert candidate[m] == '/' && MatchesFrom(pattern, candidate, p, m + 1);
      }
      assert DirectoryMatches(pattern, candidate, p, c);
    }
  }

  lemma EndsAt(pattern: string, candidate: string, p: nat, c: nat, n: nat)
    requires p <= |pattern| && c <= n <= |candidate|
    requires (n == c || candidate[n - 1] == '/') && MatchesFrom(pattern, candidate, p, n)
    ensures exists n ::
              c <= n <= |candidate| && (n == c || candidate[n - 1] == '/') && MatchesFrom(pattern, candidate, p, n)
  {
  }

  /** From any pair of positions the matcher accepts exactly the language of the
      rest of the pattern. */
  lemma {:induction false} MatchesFromIff(pattern: string, candidate: string, p: nat, c: nat)
    requires p <= |pattern| && c <= |candidate|
    ensures MatchesFrom(pattern, candidate, p, c) <==> InLanguage(TokensFrom(pattern, p), candidate[c..])
    decreases |pattern| - p
  {
    if p == |pattern| {
      InLanguageNil(candidate[c..]);
    } else {
      var (token, next) := TokenAt(pattern, p);
      MatcherStep(pattern, candidate, p, c);
      LanguageFrom(token, TokensFrom(pattern, next), candidate, c);
      forall n | c <= n <= |candidate|
        ensures MatchesFrom(pattern, candidate, next, n) <==> InLanguage(TokensFrom(pattern, next), candidate[n..])
      {
        MatchesFromIff(pattern, candidate, next, n);
      }
    }
  }

  /** `glob_matches` accepts exactly the language of the pattern's tokens. */
  lemma GlobMatchesIff(pattern: string, candidate: string)
    ensures GlobMatches(pattern, candidate) <==> InLanguage(Tokenise(pattern), candidate)
  {
    MatchesFromIff(pattern, candidate, 0, 0);
    assert candidate[0..] == candidate;
  }
}
