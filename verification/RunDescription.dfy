/**
  The message a coordinator worker reads its run from (agens-cli, worker.rs):
  three fields behind a fence that is grown until no field contains it.
*/
module RunDescription {
  import opened Wrappers
  import opened Text

  // ------------------------------------------------------------------- fence

  /** `n` equals signs. */
  function Equals(n: nat): string {
    seq(n, _ => '=')
  }

  function LeadingRun(text: string): (n: nat)
    ensures n <= |text|
    ensures forall i :: 0 <= i < n ==> text[i] == '='
    ensures n < |text| ==> text[n] != '='
  {
    if text == [] || text[0] != '=' then 0 else 1 + LeadingRun(text[1..])
  }

  /** The longest run of equals signs anywhere in the text. */
  function LongestRun(text: string): nat {
    if text == [] then 0 else Max(LeadingRun(text), LongestRun(text[1..]))
  }

  function Max(a: nat, b: nat): nat {
    if a < b then b else a
  }

  function FenceLength(task: string, scope: string, dod: string): nat {
    Max(5, 1 + Max(LongestRun(task), Max(LongestRun(scope), LongestRun(dod))))
  }

  lemma LeadingRunContains(text: string, n: nat)
    ensures n <= LeadingRun(text) <==> Equals(n) <= text
  {
    if Equals(n) <= text {
      assert forall i :: 0 <= i < n ==> text[i] == Equals(n)[i];
    }
  }

  /** A fence of `n` is contained exactly in the texts with a run as long. */
  lemma {:induction false} ContainsRun(text: string, n: nat)
    requires n > 0
    ensures Contains(text, Equals(n)) <==> n <= LongestRun(text)
  {
    if text != [] {
      ContainsRun(text[1..], n);
      LeadingRunContains(text, n);
      if Contains(text, Equals(n)) {
        var i :| 0 <= i <= |text| - n && text[i..][..n] == Equals(n);
        if i == 0 {
          assert text[0..] == text;
        } else {
          assert text[1..][i - 1..] == text[i..];
        }
      }
      if Equals(n) <= text {
        ContainedAt(text, Equals(n), 0);
      }
      if Contains(text[1..], Equals(n)) {
        var i :| 0 <= i <= |text| - 1 - n && text[1..][i..][..n] == Equals(n);
        assert text[1..][i..] == text[i + 1..];
        assert text[i + 1..][..n] == Equals(n);
      }
    }
  }

  /** `section_fence_for`: the loop ends, with the shortest fence of at least
      five that no field contains. */
  method SectionFenceFor(task: string, scope: string, dod: string) returns (fence: string)
    ensures fence == Equals(FenceLength(task, scope, dod))
    ensures |fence| >= 5 && !Contains(task, fence) && !Contains(scope, fence) && !Contains(dod, fence)
    ensures forall n :: 5 <= n < |fence| ==>
              Contains(task, Equals(n)) || Contains(scope, Equals(n)) || Contains(dod, Equals(n))
  {
    fence := "=====";
    forall n: nat | n > 0
      ensures Contains(task, Equals(n)) <==> n <= LongestRun(task)
      ensures Contains(scope, Equals(n)) <==> n <= LongestRun(scope)
      ensures Contains(dod, Equals(n)) <==> n <= LongestRun(dod)
    {
      ContainsRun(task, n);
      ContainsRun(scope, n);
      ContainsRun(dod, n);
    }
    while Contains(task, fence) || Contains(scope, fence) || Contains(dod, fence)
      invariant fence == Equals(|fence|)
      invariant 5 <= |fence| <= FenceLength(task, scope, dod)
      decreases FenceLength(task, scope, dod) - |fence|
    {
      fence := fence + ['='];
    }
  }

  // -------------------------------------------------------------- description

  const TASK := " TASK"
  const SCOPE := " DECLARED SCOPE"
  const DONE := " DEFINITION OF DONE"
  const END := " END"

  /** `describe_run`. */
  function DescribeRun(task: string, scope: string, dod: string, fence: string): string {
    fence + TASK + "\n" + task + "\n\n"
    + fence + SCOPE + "\n" + scope + "\n\n"
    + fence + DONE + "\n" + dod + "\n\n"
    + fence + END
  }

  /** The description under the fence grown for its own fields. */
  function Description(task: string, scope: string, dod: string): string {
    DescribeRun(task, scope, dod, Equals(FenceLength(task, scope, dod)))
  }

  function Lines(text: string): seq<string> {
    Split(text, '\n')
  }

  function Joined(lines: seq<string>): string {
    if lines == [] then "" else if |lines| == 1 then lines[0] else lines[0] + "\n" + Joined(lines[1..])
  }

  function FenceLines(lines: seq<string>, fence: string): seq<string> {
    if lines == [] then []
    else (if fence <= lines[0] then [lines[0]] else []) + FenceLines(lines[1..], fence)
  }

  /** How many lines stand before the first that starts with the fence. */
  function BodyLength(lines: seq<string>, fence: string): (n: nat)
    ensures n <= |lines|
  {
    if lines == [] || fence <= lines[0] then 0 else 1 + BodyLength(lines[1..], fence)
  }

  /** The lines cut at their headings: each heading with the lines under it. */
  function Sections(lines: seq<string>, fence: string): seq<(string, seq<string>)>
    decreases |lines|
  {
    if lines == [] then []
    else
      var n := BodyLength(lines[1..], fence);
      [(lines[0], lines[1..][..n])] + Sections(lines[1..][n..], fence)
  }

  /** The text of a section: its lines but for the blank one that closes it. */
  function SectionText(lines: seq<string>): string {
    if lines == [] then "" else Joined(lines[..|lines| - 1])
  }

  /** Reads a description back, knowing only how descriptions are laid out: the
      run of equals signs it opens with is its fence. */
  function ReadDescription(text: string): Option<(string, string, string)> {
    var fence := Equals(LeadingRun(text));
    var sections := Sections(Lines(text), fence);
    if |sections| != 4 then None
    else Some((SectionText(sections[0].1), SectionText(sections[1].1), SectionText(sections[2].1)))
  }

  // ------------------------------------------------------------------- lines

  lemma {:induction false} LinesConcat(left: string, right: string)
    ensures Lines(left + "\n" + right) == Lines(left) + Lines(right)
    decreases |left|
  {
    var text := left + "\n" + right;
    var i := IndexOf(left, '\n', 0);
    assert text[|left|] == '\n';
    assert forall j :: 0 <= j < |left| ==> text[j] == left[j];
    assert IndexOf(text, '\n', 0) == i;
    assert text[..i] == left[..i];
    if i < |left| {
      LinesConcat(left[i + 1..], right);
      assert text[i + 1..] == left[i + 1..] + "\n" + right;
    } else {
      assert text[i + 1..] == right && left[..i] == left;
    }
  }

  lemma {:induction false} JoinedLines(text: string)
    ensures Joined(Lines(text)) == text
    decreases |text|
  {
    var i := IndexOf(text, '\n', 0);
    if i < |text| {
      JoinedLines(text[i + 1..]);
      assert Lines(text)[1..] == Lines(text[i + 1..]);
      assert text == text[..i] + "\n" + text[i + 1..];
    }
  }

  /** No line of a text that does not contain the fence starts with it. */
  lemma {:induction false} NoFenceLine(text: string, fence: string)
    requires !Contains(text, fence)
    ensures forall k :: 0 <= k < |Lines(text)| ==> !(fence <= Lines(text)[k])
    decreases |text|
  {
    var i := IndexOf(text, '\n', 0);
    if fence <= text[..i] {
      assert text[0..|fence|] == text[..i][..|fence|];
      ContainedAt(text, fence, 0);
    }
    if i < |text| {
      var rest := text[i + 1..];
      ContainedInSuffix(text, i + 1, fence);
      NoFenceLine(rest, fence);
      forall k | 0 <= k < |Lines(text)|
        ensures !(fence <= Lines(text)[k])
      {
        assert Lines(text)[k] == if k == 0 then text[..i] else Lines(rest)[k - 1];
      }
    }
  }

  /** A section laid out before what follows it, line by line. */
  lemma SectionLines(heading: string, body: string, rest: string)
    requires '\n' !in heading
    ensures Lines(heading + "\n" + body + "\n\n" + rest) == [heading] + (Lines(body) + [""]) + Lines(rest)
  {
    var blank := "" + "\n" + rest;
    assert heading + "\n" + body + "\n\n" + rest == heading + "\n" + (body + "\n" + blank);
    LinesConcat(heading, body + "\n" + blank);
    LinesConcat(body, blank);
    LinesConcat("", rest);
    assert Lines(heading) == [heading];
    assert Lines("") == [""];
  }

  /** Cutting off the first section: its lines hold no fence, what follows opens
      with one. */
  lemma {:induction false} BodyEnds(body: seq<string>, rest: seq<string>, fence: string)
    requires forall k :: 0 <= k < |body| ==> !(fence <= body[k])
    requires rest != [] ==> fence <= rest[0]
    ensures BodyLength(body + rest, fence) == |body|
    ensures FenceLines(body + rest, fence) == FenceLines(rest, fence)
  {
    if body == [] {
      assert body + rest == rest;
    } else {
      BodyEnds(body[1..], rest, fence);
      assert (body + rest)[1..] == body[1..] + rest;
    }
  }

  /** What a section contributes to the cut, and to the heading lines. */
  lemma FirstSection(heading: string, text: string, rest: string, fence: string)
    requires '\n' !in heading && fence <= heading && fence != "" && !Contains(text, fence)
    requires fence <= Lines(rest)[0]
    ensures var lines := Lines(heading + "\n" + text + "\n\n" + rest);
      && lines[0] == heading
      && Sections(lines, fence) == [(heading, Lines(text) + [""])] + Sections(Lines(rest), fence)
      && FenceLines(lines, fence) == [heading] + FenceLines(Lines(rest), fence)
  {
    var body := Lines(text) + [""];
    var lines := [heading] + body + Lines(rest);
    SectionLines(heading, text, rest);
    NoFenceLine(text, fence);
    BodyEnds(body, Lines(rest), fence);
    assert lines[1..] == body + Lines(rest);
    assert (body + Lines(rest))[..|body|] == body && (body + Lines(rest))[|body|..] == Lines(rest);
  }

  lemma SectionReads(text: string)
    ensures SectionText(Lines(text) + [""]) == text
  {
    JoinedLines(text);
    var body := Lines(text) + [""];
    assert body[..|body| - 1] == Lines(text);
  }

  /** The last heading stands alone. */
  lemma LastSection(heading: string, fence: string)
    requires '\n' !in heading && fence <= heading
    ensures Lines(heading) == [heading]
    ensures Sections(Lines(heading), fence) == [(heading, [])] && FenceLines(Lines(heading), fence) == [heading]
  {
  }

  /** Three texts under headings, and a last heading on its own. */
  function Nested(h1: string, a: string, h2: string, b: string, h3: string, c: string, h4: string): string {
    h1 + "\n" + a + "\n\n" + (h2 + "\n" + b + "\n\n" + (h3 + "\n" + c + "\n\n" + h4))
  }

  lemma DescriptionNests(task: string, scope: string, dod: string, fence: string)
    ensures DescribeRun(task, scope, dod, fence)
            == Nested(fence + TASK, task, fence + SCOPE, scope, fence + DONE, dod, fence + END)
  {
  }

  predicate Heading(line: string, fence: string) {
    '\n' !in line && fence <= line
  }

  lemma LabelledHeading(fence: string, title: string)
    requires '\n' !in fence && '\n' !in title
    ensures Heading(fence + title, fence)
  {
  }

  lemma DescriptionHeadings(fence: string)
    requires '\n' !in fence
    ensures Heading(fence + TASK, fence) && Heading(fence + SCOPE, fence)
    ensures Heading(fence + DONE, fence) && Heading(fence + END, fence)
  {
    LabelledHeading(fence, TASK);
    LabelledHeading(fence, SCOPE);
    LabelledHeading(fence, DONE);
    LabelledHeading(fence, END);
  }

  lemma FourSections(h1: string, a: string, h2: string, b: string, h3: string, c: string, h4: string, fence: string)
    requires fence != "" && Heading(h1, fence) && Heading(h2, fence) && Heading(h3, fence) && Heading(h4, fence)
    requires !Contains(a, fence) && !Contains(b, fence) && !Contains(c, fence)
    ensures var lines := Lines(Nested(h1, a, h2, b, h3, c, h4));
      && FenceLines(lines, fence) == [h1, h2, h3, h4]
      && Sections(lines, fence)
         == [(h1, Lines(a) + [""]), (h2, Lines(b) + [""]), (h3, Lines(c) + [""]), (h4, [])]
  {
    var third := h3 + "\n" + c + "\n\n" + h4;
    var second := h2 + "\n" + b + "\n\n" + third;
    LastSection(h4, fence);
    FirstSection(h3, c, h4, fence);
    FirstSection(h2, b, third, fence);
    FirstSection(h1, a, second, fence);
  }

  /** Under any fence its fields do not contain, a description has exactly the
      four heading lines, in order, with the lines of one field under each. */
  lemma DescriptionCuts(task: string, scope: string, dod: string, fence: string)
    requires '\n' !in fence && fence != ""
    requires !Contains(task, fence) && !Contains(scope, fence) && !Contains(dod, fence)
    ensures var lines := Lines(DescribeRun(task, scope, dod, fence));
      && FenceLines(lines, fence) == [fence + TASK, fence + SCOPE, fence + DONE, fence + END]
      && Sections(lines, fence) == [(fence + TASK, Lines(task) + [""]), (fence + SCOPE, Lines(scope) + [""]),
                                    (fence + DONE, Lines(dod) + [""]), (fence + END, [])]
  {
    DescriptionNests(task, scope, dod, fence);
    DescriptionHeadings(fence);
    FourSections(fence + TASK, task, fence + SCOPE, scope, fence + DONE, dod, fence + END, fence);
  }

  lemma FenceOpens(n: nat, rest: string)
    requires rest != "" && rest[0] != '='
    ensures LeadingRun(Equals(n) + rest) == n
  {
    var text := Equals(n) + rest;
    assert text[n] == rest[0];
    assert forall i :: 0 <= i < n ==> text[i] == Equals(n)[i];
  }

  lemma DescriptionOpensWithFence(task: string, scope: string, dod: string, n: nat)
    ensures LeadingRun(DescribeRun(task, scope, dod, Equals(n))) == n
  {
    var fence := Equals(n);
    DescriptionNests(task, scope, dod, fence);
    var rest := TASK + ("\n" + task + "\n\n"
                        + ((fence + SCOPE) + "\n" + scope + "\n\n"
                           + ((fence + DONE) + "\n" + dod + "\n\n" + (fence + END))));
    assert Nested(fence + TASK, task, fence + SCOPE, scope, fence + DONE, dod, fence + END) == fence + rest;
    FenceOpens(n, rest);
  }

  /** Round trip: the description printed under its own fence reads back as the
      three fields it was printed from, whatever they hold. */
  lemma DescriptionRoundTrip(task: string, scope: string, dod: string)
    ensures ReadDescription(Description(task, scope, dod)) == Some((task, scope, dod))
    ensures var fence := Equals(FenceLength(task, scope, dod));
      FenceLines(Lines(Description(task, scope, dod)), fence)
      == [fence + " TASK", fence + " DECLARED SCOPE", fence + " DEFINITION OF DONE", fence + " END"]
  {
    var n := FenceLength(task, scope, dod);
    ContainsRun(task, n);
    ContainsRun(scope, n);
    ContainsRun(dod, n);
    DescriptionOpensWithFence(task, scope, dod, n);
    DescriptionCuts(task, scope, dod, Equals(n));
    SectionReads(task);
    SectionReads(scope);
    SectionReads(dod);
  }

  /** Two runs with the same description are the same run. */
  lemma DescriptionIsInjective(
    task: string, scope: string, dod: string, task': string, scope': string, dod': string)
    requires Description(task, scope, dod) == Description(task', scope', dod')
    ensures task == task' && scope == scope' && dod == dod'
  {
    DescriptionRoundTrip(task, scope, dod);
    DescriptionRoundTrip(task', scope', dod');
  }
}
