/** Searches and splits over texts, as Rust's `str` methods answer them. */
module Text {
  import opened Wrappers

  /** `str::contains` with a pattern string. */
  predicate Contains(text: string, part: string) {
    exists i :: 0 <= i <= |text| - |part| && text[i..][..|part|] == part
  }

  /** Where `c` first occurs from index `from` on, or the length of the text. */
  function IndexOf(text: string, c: char, from: nat): (i: nat)
    requires from <= |text|
    ensures from <= i <= |text|
    ensures i < |text| ==> text[i] == c
    ensures forall j :: from <= j < i ==> text[j] != c
    decreases |text| - from
  {
    if from == |text| || text[from] == c then from else IndexOf(text, c, from + 1)
  }

  /** `str::split_once` at a character. */
  function SplitOnce(text: string, c: char): Option<(string, string)> {
    var i := IndexOf(text, c, 0);
    if i == |text| then None else Some((text[..i], text[i + 1..]))
  }

  /** `str::split` at a character: never empty. */
  function Split(text: string, c: char): (parts: seq<string>)
    ensures |parts| > 0
    decreases |text|
  {
    var i := IndexOf(text, c, 0);
    if i == |text| then [text] else [text[..i]] + Split(text[i + 1..], c)
  }

  /** The parts, one after the other. */
  function Concat(parts: seq<string>): string {
    if parts == [] then "" else parts[0] + Concat(parts[1..])
  }

  /** A position where a part shows up shows it is contained. */
  lemma ContainedAt(text: string, part: string, i: nat)
    requires i + |part| <= |text| && text[i..i + |part|] == part
    ensures Contains(text, part)
  {
    assert text[i..][..|part|] == part;
  }

  lemma ContainedInSuffix(text: string, from: nat, part: string)
    requires from <= |text|
    ensures Contains(text[from..], part) ==> Contains(text, part)
  {
    if Contains(text[from..], part) {
      var i :| 0 <= i <= |text| - from - |part| && text[from..][i..][..|part|] == part;
      assert text[from + i..] == text[from..][i..];
      assert text[from + i..][..|part|] == part;
    }
  }

  /** Where `part` first occurs from index `from` on. */
  function Find(text: string, part: string, from: nat): (found: Option<nat>)
    requires from <= |text|
    ensures found.Some? ==> from <= found.value && found.value + |part| <= |text|
    decreases |text| - from
  {
    if part <= text[from..] then Some(from)
    else if from == |text| then None
    else Find(text, part, from + 1)
  }

  /** Find answers with the first occurrence there is. */
  lemma {:induction false} FindExactly(text: string, part: string, from: nat)
    requires from <= |text|
    ensures var found := Find(text, part, from);
      && (found.Some? ==> part <= text[found.value..])
      && (forall j :: from <= j <= |text| && (found.None? || j < found.value) ==> !(part <= text[j..]))
    decreases |text| - from
  {
    if !(part <= text[from..]) && from < |text| {
      FindExactly(text, part, from + 1);
    }
  }

  /** `str::split_once` at a string. */
  function SplitOnceAt(text: string, part: string): Option<(string, string)> {
    match Find(text, part, 0)
    case None => None
    case Some(i) => Some((text[..i], text[i + |part|..]))
  }

  /** `char::is_whitespace`: the Unicode White_Space property. */
  predicate IsWhitespace(c: char) {
    || '\U{9}' <= c <= '\U{D}'
    || c in {' ', '\U{85}', '\U{A0}', '\U{1680}', '\U{2028}', '\U{2029}', '\U{202F}', '\U{205F}', '\U{3000}'}
    || '\U{2000}' <= c <= '\U{200A}'
  }

  function TrimStart(text: string): string {
    if text != [] && IsWhitespace(text[0]) then TrimStart(text[1..]) else text
  }

  function TrimEnd(text: string): string {
    if text != [] && IsWhitespace(text[|text| - 1]) then TrimEnd(text[..|text| - 1]) else text
  }

  /** `str::trim`. */
  function Trim(text: string): string {
    TrimEnd(TrimStart(text))
  }

  predicate Blank(text: string) {
    forall i :: 0 <= i < |text| ==> IsWhitespace(text[i])
  }

  lemma {:induction false} TrimStartShortens(text: string)
    ensures |TrimStart(text)| < |text| || TrimStart(text) == text
    ensures TrimStart(text) == text <==> text == [] || !IsWhitespace(text[0])
    ensures TrimStart(text) == [] <==> Blank(text)
    ensures TrimStart(text) != [] ==> !IsWhitespace(TrimStart(text)[0])
  {
    if text != [] && IsWhitespace(text[0]) {
      TrimStartShortens(text[1..]);
      assert text == [text[0]] + text[1..];
    }
  }

  lemma {:induction false} TrimEndShortens(text: string)
    ensures |TrimEnd(text)| < |text| || TrimEnd(text) == text
    ensures TrimEnd(text) == text <==> text == [] || !IsWhitespace(text[|text| - 1])
    ensures text != [] && !IsWhitespace(text[0]) ==> TrimEnd(text) != []
  {
    if text != [] && IsWhitespace(text[|text| - 1]) {
      TrimEndShortens(text[..|text| - 1]);
    }
  }

  /** A text is its own trim when it neither begins nor ends with whitespace,
      and trims to nothing when it is blank. */
  lemma TrimExactly(text: string)
    ensures Trim(text) == text <==> text == [] || (!IsWhitespace(text[0]) && !IsWhitespace(text[|text| - 1]))
    ensures Trim(text) == [] <==> Blank(text)
  {
    TrimStartShortens(text);
    TrimEndShortens(TrimStart(text));
  }
}
