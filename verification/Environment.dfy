/**
  Environment expansion in agens-config: `$NAME`, `${NAME}`, `${NAME:-fallback}`
  and, for MCP fields, `$(command)`.

  The loops are proved to be single pass: cut the input into pieces first, then
  give each piece its value. What counts as alphabetic or numeric, and what a
  command prints, are parameters of every theorem.
*/
module Environment {
  import opened Wrappers
  import opened Text

  datatype ExpansionError =
    | MissingVariable(name: string)
    | UnterminatedExpression
    | InvalidVariable(name: string)

  type Expansion = Result<string, ExpansionError>

  type Variables = map<string, string>

  datatype Characters = Characters(alphabetic: char -> bool, numeric: char -> bool)

  predicate IsVariableStart(u: Characters, c: char) {
    c == '_' || u.alphabetic(c)
  }

  predicate IsVariablePart(u: Characters, c: char) {
    IsVariableStart(u, c) || u.numeric(c)
  }

  predicate IsVariableName(u: Characters, name: string) {
    && name != []
    && IsVariableStart(u, name[0])
    && forall i :: 1 <= i < |name| ==> IsVariablePart(u, name[i])
  }

  /** The first error, or the two values one after the other. */
  function Append(first: Expansion, rest: Expansion): Expansion {
    if first.Err? then first
    else if rest.Err? then rest
    else Ok(first.value + rest.value)
  }

  lemma AppendLaws(a: Expansion, b: Expansion, c: Expansion)
    ensures Append(Append(a, b), c) == Append(a, Append(b, c))
    ensures Append(Ok(""), a) == a == Append(a, Ok(""))
  {
    if a.Ok? {
      assert "" + a.value == a.value == a.value + "";
      if b.Ok? && c.Ok? {
        assert a.value + b.value + c.value == a.value + (b.value + c.value);
      }
    }
  }

  // ------------------------------------------------------------------ pieces

  datatype Piece =
    | Plain(character: char)
    | Variable(name: string)
    | Braced(expression: string)
    | Open(rest: string)

  /** Where the name that starts at `from` ends. */
  function NameEnd(u: Characters, input: string, from: nat): (end: nat)
    requires from <= |input|
    ensures from <= end <= |input|
    decreases |input| - from
  {
    if from < |input| && IsVariablePart(u, input[from]) then NameEnd(u, input, from + 1) else from
  }

  /** The piece that begins at `i`, and where the next one does. */
  function PieceAt(u: Characters, input: string, i: nat): (r: (Piece, nat))
    requires i < |input|
    ensures i < r.1 <= |input|
  {
    if input[i] != '$' || i + 1 == |input| then (Plain(input[i]), i + 1)
    else if input[i + 1] == '{' then
      var end := IndexOf(input, '}', i + 2);
      if end == |input| then (Open(input[i + 2..]), end) else (Braced(input[i + 2..end]), end + 1)
    else if IsVariableStart(u, input[i + 1]) then
      var end := NameEnd(u, input, i + 1);
      (Variable(input[i + 1..end]), end)
    else (Plain('$'), i + 1)
  }

  function PiecesFrom(u: Characters, input: string, i: nat): seq<Piece>
    requires i <= |input|
    decreases |input| - i
  {
    if i == |input| then [] else
      var (piece, next) := PieceAt(u, input, i);
      [piece] + PiecesFrom(u, input, next)
  }

  /** `expand_braced_expression`: a set variable wins even when it is empty. */
  function BracedValue(u: Characters, expression: string, env: Variables): Expansion {
    var parts := SplitOnceAt(expression, ":-");
    var name := if parts.Some? then parts.value.0 else expression;
    if !IsVariableName(u, name) then Err(InvalidVariable(name))
    else if name in env then Ok(env[name])
    else if parts.Some? then Ok(parts.value.1)
    else Err(MissingVariable(name))
  }

  function Value(u: Characters, piece: Piece, env: Variables): Expansion {
    match piece
    case Plain(c) => Ok([c])
    case Variable(name) => if name in env then Ok(env[name]) else Err(MissingVariable(name))
    case Braced(expression) => BracedValue(u, expression, env)
    case Open(_) => Err(UnterminatedExpression)
  }

  function Substitute(u: Characters, pieces: seq<Piece>, env: Variables): Expansion {
    if pieces == [] then Ok("") else Append(Value(u, pieces[0], env), Substitute(u, pieces[1..], env))
  }

  function ExpandFrom(u: Characters, input: string, i: nat, env: Variables): Expansion
    requires i <= |input|
  {
    Substitute(u, PiecesFrom(u, input, i), env)
  }

  /** Cut, then substitute: no piece depends on the value of another. */
  function Expand(u: Characters, input: string, env: Variables): Expansion {
    ExpandFrom(u, input, 0, env)
  }

  lemma ExpandFromStep(u: Characters, input: string, i: nat, env: Variables)
    requires i < |input|
    ensures var (piece, next) := PieceAt(u, input, i);
      ExpandFrom(u, input, i, env) == Append(Value(u, piece, env), ExpandFrom(u, input, next, env))
  {
    var (piece, next) := PieceAt(u, input, i);
    assert PiecesFrom(u, input, i)[1..] == PiecesFrom(u, input, next);
  }

  // ------------------------------------------------------------------- loops

  /** One round of the loop: the value of the piece at `i` behind what was put
      out so far. */
  lemma ExpandRound(u: Characters, input: string, i: nat, env: Variables, output: string)
    requires i < |input|
    ensures var (piece, next) := PieceAt(u, input, i); var value := Value(u, piece, env);
      Append(Ok(output), ExpandFrom(u, input, i, env))
      == if value.Err? then value else Append(Ok(output + value.value), ExpandFrom(u, input, next, env))
  {
    var (piece, next) := PieceAt(u, input, i);
    ExpandFromStep(u, input, i, env);
    AppendLaws(Ok(output), Value(u, piece, env), ExpandFrom(u, input, next, env));
  }

  /** `read_braced_expression`: reads on from `start` to the closing brace. */
  method ReadBraced(input: string, start: nat) returns (expression: Option<string>, next: nat)
    requires start <= |input|
    ensures var end := IndexOf(input, '}', start);
      if end == |input| then expression == None && next == end
      else expression == Some(input[start..end]) && next == end + 1
  {
    var text := "";
    next := start;
    while next < |input|
      invariant start <= next <= |input| && text == input[start..next]
      invariant IndexOf(input, '}', start) == IndexOf(input, '}', next)
    {
      if input[next] == '}' {
        return Some(text), next + 1;
      }
      text := text + [input[next]];
      next := next + 1;
    }
    expression := None;
  }

  /** The inner loop of `expand_environment`, which reads a bare name. */
  method ReadName(u: Characters, input: string, start: nat) returns (name: string, next: nat)
    requires start <= |input|
    ensures next == NameEnd(u, input, start) && name == input[start..next]
  {
    name := "";
    next := start;
    while next < |input| && IsVariablePart(u, input[next])
      invariant start <= next <= |input| && name == input[start..next]
      invariant NameEnd(u, input, start) == NameEnd(u, input, next)
    {
      name := name + [input[next]];
      next := next + 1;
    }
  }

  /** One round of the loop: reads the piece at `i`, and gives its value. */
  method ExpandPiece(u: Characters, input: string, i: nat, env: Variables) returns (value: Expansion, next: nat)
    requires i < |input|
    ensures next == PieceAt(u, input, i).1 && value == Value(u, PieceAt(u, input, i).0, env)
  {
    if input[i] != '$' {
      value, next := Ok([input[i]]), i + 1;
    } else if i + 1 < |input| && input[i + 1] == '{' {
      var expression;
      expression, next := ReadBraced(input, i + 2);
      value := if expression.None? then Err(UnterminatedExpression) else BracedValue(u, expression.value, env);
    } else if i + 1 < |input| && IsVariableStart(u, input[i + 1]) {
      var name;
      name, next := ReadName(u, input, i + 1);
      value := if name in env then Ok(env[name]) else Err(MissingVariable(name));
    } else {
      value, next := Ok("$"), i + 1;
    }
  }

  /** `expand_environment`. */
  method ExpandEnvironment(u: Characters, input: string, env: Variables) returns (result: Expansion)
    ensures result == Expand(u, input, env)
  {
    var output := "";
    var i := 0;
    AppendLaws(Expand(u, input, env), Ok(""), Ok(""));
    while i < |input|
      invariant 0 <= i <= |input|
      invariant Expand(u, input, env) == Append(Ok(output), ExpandFrom(u, input, i, env))
    {
      ExpandRound(u, input, i, env, output);
      var value;
      value, i := ExpandPiece(u, input, i, env);
      if value.Err? {
        return value;
      }
      output := output + value.value;
    }
    AppendLaws(Ok(output), Ok(""), Ok(""));
    result := Ok(output);
  }

  // -------------------------------------------------------------- properties

  function RenderPiece(piece: Piece): string {
    match piece
    case Plain(c) => [c]
    case Variable(name) => "$" + name
    case Braced(expression) => "${" + expression + "}"
    case Open(rest) => "${" + rest
  }

  function Render(pieces: seq<Piece>): string {
    if pieces == [] then "" else RenderPiece(pieces[0]) + Render(pieces[1..])
  }

  lemma TwoInFront(text: string, i: nat)
    requires i + 2 <= |text|
    ensures text[i..|text|] == [text[i]] + [text[i + 1]] + text[i + 2..]
  {
  }

  lemma RenderedPiece(u: Characters, input: string, i: nat)
    requires i < |input|
    ensures RenderPiece(PieceAt(u, input, i).0) == input[i..PieceAt(u, input, i).1]
  {
    var (piece, next) := PieceAt(u, input, i);
    match piece
    case Plain(_) =>
    case Variable(name) => assert input[i..next] == [input[i]] + input[i + 1..next];
    case Braced(expression) =>
      assert input[i..next] == [input[i]] + [input[i + 1]] + input[i + 2..next - 1] + [input[next - 1]];
    case Open(rest) =>
      assert next == |input| && rest == input[i + 2..];
      TwoInFront(input, i);
  }

  lemma RenderFrom(u: Characters, input: string, i: nat)
    requires i < |input|
    ensures var (piece, next) := PieceAt(u, input, i);
      Render(PiecesFrom(u, input, i)) == RenderPiece(piece) + Render(PiecesFrom(u, input, next))
  {
    var (piece, next) := PieceAt(u, input, i);
    assert PiecesFrom(u, input, i)[1..] == PiecesFrom(u, input, next);
  }

  /** Cutting loses nothing: the pieces written back are the input. */
  lemma {:induction false} PiecesAreTheInput(u: Characters, input: string, i: nat)
    requires i <= |input|
    ensures Render(PiecesFrom(u, input, i)) == input[i..]
    decreases |input| - i
  {
    if i < |input| {
      var next := PieceAt(u, input, i).1;
      RenderFrom(u, input, i);
      RenderedPiece(u, input, i);
      PiecesAreTheInput(u, input, next);
      SlicesJoin(input, i, next);
    }
  }

  lemma SlicesJoin(text: string, from: nat, middle: nat)
    requires from <= middle <= |text|
    ensures text[from..middle] + text[middle..] == text[from..]
  {
  }

  /** A stretch without a dollar sign stands for itself. */
  lemma {:induction false} PlainTextIsUnchanged(u: Characters, input: string, i: nat, env: Variables)
    requires i <= |input| && forall j :: i <= j < |input| ==> input[j] != '$'
    ensures ExpandFrom(u, input, i, env) == Ok(input[i..])
    decreases |input| - i
  {
    if i < |input| {
      ExpandFromStep(u, input, i, env);
      PlainTextIsUnchanged(u, input, i + 1, env);
      assert input[i..] == [input[i]] + input[i + 1..];
    }
  }

  /** The variable a piece reads, if it reads one. */
  function NameOf(u: Characters, piece: Piece): Option<string> {
    match piece
    case Variable(name) => Some(name)
    case Braced(expression) =>
      var parts := SplitOnceAt(expression, ":-");
      Some(if parts.Some? then parts.value.0 else expression)
    case _ => None
  }

  predicate AgreeOn(left: Variables, right: Variables, name: string) {
    (name in left <==> name in right) && (name in left ==> left[name] == right[name])
  }

  /** The result depends only on the variables the pieces name. */
  lemma {:induction false} DependsOnNamedVariables(u: Characters, pieces: seq<Piece>, left: Variables, right: Variables)
    requires forall i :: 0 <= i < |pieces| && NameOf(u, pieces[i]).Some? ==>
               AgreeOn(left, right, NameOf(u, pieces[i]).value)
    ensures Substitute(u, pieces, left) == Substitute(u, pieces, right)
  {
    if pieces != [] {
      assert NameOf(u, pieces[0]).Some? ==> AgreeOn(left, right, NameOf(u, pieces[0]).value);
      DependsOnNamedVariables(u, pieces[1..], left, right);
    }
  }

  /** One text per piece, each the value of its own piece alone. */
  ghost predicate PieceByPiece(u: Characters, pieces: seq<Piece>, env: Variables, texts: seq<string>) {
    |texts| == |pieces| && forall i :: 0 <= i < |pieces| ==> Value(u, pieces[i], env) == Ok(texts[i])
  }

  ghost predicate FirstFailure(u: Characters, pieces: seq<Piece>, env: Variables, k: int) {
    && 0 <= k < |pieces|
    && Value(u, pieces[k], env).Err?
    && forall i :: 0 <= i < k ==> Value(u, pieces[i], env).Ok?
  }

  /** Substitution succeeds exactly when every piece has a value, with the
      concatenation of those, and fails exactly with the first piece's failure. */
  lemma {:induction false} SubstituteExactly(u: Characters, pieces: seq<Piece>, env: Variables)
    ensures forall texts :: PieceByPiece(u, pieces, env, texts) ==> Substitute(u, pieces, env) == Ok(Concat(texts))
    ensures forall k :: FirstFailure(u, pieces, env, k) ==> Substitute(u, pieces, env) == Value(u, pieces[k], env)
    ensures if Substitute(u, pieces, env).Ok? then exists texts :: PieceByPiece(u, pieces, env, texts)
            else exists k :: FirstFailure(u, pieces, env, k)
  {
    if pieces == [] {
      assert PieceByPiece(u, pieces, env, []);
    } else {
      var rest := pieces[1..];
      var head := Value(u, pieces[0], env);
      SubstituteExactly(u, rest, env);
      forall texts | PieceByPiece(u, pieces, env, texts)
        ensures Substitute(u, pieces, env) == Ok(Concat(texts))
      {
        assert PieceByPiece(u, rest, env, texts[1..]);
      }
      forall k | FirstFailure(u, pieces, env, k)
        ensures Substitute(u, pieces, env) == Value(u, pieces[k], env)
      {
        if k > 0 {
          assert forall i :: 0 <= i < |rest| ==> rest[i] == pieces[i + 1];
          assert FirstFailure(u, rest, env, k - 1);
        }
      }
      if Substitute(u, pieces, env).Ok? {
        var texts :| PieceByPiece(u, rest, env, texts);
        assert PieceByPiece(u, pieces, env, [head.value] + texts);
      } else if head.Err? {
        assert FirstFailure(u, pieces, env, 0);
      } else {
        var k :| FirstFailure(u, rest, env, k);
        assert FirstFailure(u, pieces, env, k + 1);
      }
    }
  }

  // ---------------------------------------------------------------- commands

  /** What running a command prints, with its trailing newline dropped. */
  type Shell = string -> Expansion

  function CommandValue(command: string, shell: Shell): Expansion {
    if Trim(command) == [] then Err(InvalidVariable("command substitution")) else shell(command)
  }

  /** A text cut at its first command: what stands before it, the command unless
      it is never closed, and what stands behind it. */
  datatype Cut = Cut(before: string, command: Option<string>, rest: string)

  function CutAtCommand(input: string): (cut: Option<Cut>)
    ensures cut.Some? ==> |cut.value.rest| < |input|
  {
    match Find(input, "$(", 0)
    case None => None
    case Some(start) =>
      var end := IndexOf(input, ')', start + 2);
      Some(if end == |input| then Cut(input[..start], None, "")
           else Cut(input[..start], Some(input[start + 2..end]), input[end + 1..]))
  }

  function Printed(command: Option<string>, shell: Shell): Expansion {
    if command.None? then Err(UnterminatedExpression) else CommandValue(command.value, shell)
  }

  /** The text before the first `$(` is expanded, the command up to the next
      `)` is run, and the text behind it is expanded in turn. */
  function ExpandCommands(u: Characters, input: string, env: Variables, shell: Shell): Expansion
    decreases |input|
  {
    match CutAtCommand(input)
    case None => Expand(u, input, env)
    case Some(cut) =>
      Append(Expand(u, cut.before, env),
             Append(Printed(cut.command, shell), ExpandCommands(u, cut.rest, env, shell)))
  }

  /** One round of the loop: two more values behind what was put out so far. */
  lemma AppendRound(output: string, literal: Expansion, printed: Expansion, rest: Expansion)
    ensures Append(Ok(output), Append(literal, Append(printed, rest)))
            == if literal.Err? then literal else if printed.Err? then printed
               else Append(Ok(output + literal.value + printed.value), rest)
  {
    if literal.Ok? && printed.Ok? && rest.Ok? {
      assert output + (literal.value + (printed.value + rest.value))
             == output + literal.value + printed.value + rest.value;
    }
  }

  lemma CommandsRound(u: Characters, input: string, env: Variables, shell: Shell, output: string)
    requires CutAtCommand(input).Some?
    ensures var cut := CutAtCommand(input).value;
      var literal := Expand(u, cut.before, env); var value := Printed(cut.command, shell);
      Append(Ok(output), ExpandCommands(u, input, env, shell))
      == if literal.Err? then literal else if value.Err? then value
         else Append(Ok(output + literal.value + value.value), ExpandCommands(u, cut.rest, env, shell))
  {
    var cut := CutAtCommand(input).value;
    AppendRound(output, Expand(u, cut.before, env), Printed(cut.command, shell),
                ExpandCommands(u, cut.rest, env, shell));
  }

  /** `expand_environment_with_commands`. */
  method ExpandEnvironmentWithCommands(u: Characters, input: string, env: Variables, shell: Shell)
    returns (result: Expansion)
    ensures result == ExpandCommands(u, input, env, shell)
  {
    var output := "";
    var remainder := input;
    AppendLaws(ExpandCommands(u, input, env, shell), Ok(""), Ok(""));
    while true
      invariant ExpandCommands(u, input, env, shell) == Append(Ok(output), ExpandCommands(u, remainder, env, shell))
      decreases |remainder|
    {
      var found := CutAtCommand(remainder);
      if found.None? {
        break;
      }
      var cut := found.value;
      CommandsRound(u, remainder, env, shell, output);
      var literal := ExpandEnvironment(u, cut.before, env);
      if literal.Err? {
        return literal;
      }
      var printed := Printed(cut.command, shell);
      if printed.Err? {
        return printed;
      }
      output := output + literal.value + printed.value;
      remainder := cut.rest;
    }
    var last := ExpandEnvironment(u, remainder, env);
    result := Append(Ok(output), last);
  }

  /** Without `$(` both expansions agree. */
  lemma CommandsOnlyWhereWritten(u: Characters, input: string, env: Variables, shell: Shell)
    requires !Contains(input, "$(")
    ensures ExpandCommands(u, input, env, shell) == Expand(u, input, env)
  {
    NotContained(input, "$(");
  }

  lemma NotContained(text: string, part: string)
    ensures Find(text, part, 0).Some? ==> Contains(text, part)
  {
    FindExactly(text, part, 0);
    match Find(text, part, 0)
    case Some(i) =>
      assert text[i..i + |part|] == text[i..][..|part|];
      ContainedAt(text, part, i);
    case None =>
  }

  /** What a command prints goes in as it is, between two expansions that never
      see it. */
  lemma CommandOutputIsVerbatim(
    u: Characters, prefix: string, command: string, rest: string, env: Variables, shell: Shell)
    requires !Contains(prefix, "$(") && ')' !in command && !Blank(command)
    ensures ExpandCommands(u, prefix + "$(" + command + ")" + rest, env, shell)
            == Append(Expand(u, prefix, env), Append(shell(command), ExpandCommands(u, rest, env, shell)))
  {
    FirstCommand(prefix, command, rest);
    TrimExactly(command);
  }

  lemma FirstCommandAt(prefix: string, command: string, rest: string)
    requires !Contains(prefix, "$(") && ')' !in command
    ensures var input := prefix + "$(" + command + ")" + rest; var end := |prefix| + 2 + |command|;
      && Find(input, "$(", 0) == Some(|prefix|) && IndexOf(input, ')', |prefix| + 2) == end < |input|
      && input[|prefix| + 2..end] == command && input[end + 1..] == rest
  {
    var tail := "$(" + command + ")" + rest;
    assert prefix + "$(" + command + ")" + rest == prefix + tail;
    FindSkips(prefix, tail);
    FirstClose(prefix + "$(", command, rest);
  }

  lemma FirstCommand(prefix: string, command: string, rest: string)
    requires !Contains(prefix, "$(") && ')' !in command
    ensures CutAtCommand(prefix + "$(" + command + ")" + rest) == Some(Cut(prefix, Some(command), rest))
  {
    FirstCommandAt(prefix, command, rest);
    assert (prefix + "$(" + command + ")" + rest)[..|prefix|] == prefix;
  }

  lemma FirstClose(prefix: string, command: string, rest: string)
    requires ')' !in command
    ensures var input := prefix + command + ")" + rest; var end := |prefix| + |command|;
      && IndexOf(input, ')', |prefix|) == end < |input|
      && input[|prefix|..end] == command && input[end + 1..] == rest
  {
    var input := prefix + command + ")" + rest;
    var end := |prefix| + |command|;
    assert input[|prefix|..end] == command && input[end] == ')';
    assert forall j :: |prefix| <= j < end ==> input[j] == command[j - |prefix|];
  }

  lemma FindSkips(prefix: string, tail: string)
    requires !Contains(prefix, "$(") && "$(" <= tail
    ensures Find(prefix + tail, "$(", 0) == Some(|prefix|)
  {
    var input := prefix + tail;
    FindExactly(input, "$(", 0);
    assert input[|prefix|..] == tail;
    forall j | 0 <= j < |prefix|
      ensures !("$(" <= input[j..])
    {
      if j + 1 < |prefix| && prefix[j] == '$' && prefix[j + 1] == '(' {
        ContainedAt(prefix, "$(", j);
      }
      assert input[j] == prefix[j] && input[j + 1] == if j + 1 < |prefix| then prefix[j + 1] else '$';
      assert input[j..][0] == input[j] && input[j..][1] == input[j + 1];
    }
  }

  // ---------------------------------------------------- what a text expands to

  /** A letter or an underscore, and then letters, digits and underscores. */
  predicate Name(u: Characters, text: string) {
    && text != ""
    && (text[0] == '_' || u.alphabetic(text[0]))
    && forall i :: 0 <= i < |text| ==> text[i] == '_' || u.alphabetic(text[i]) || u.numeric(text[i])
  }

  /** None of the characters the syntax is made of is alphabetic or numeric. */
  predicate Punctuated(u: Characters) {
    forall c :: c in {'$', '{', '}', ':', '-'} ==> !u.alphabetic(c) && !u.numeric(c)
  }

  lemma IndexShift(text: string, c: char, i: nat, j: nat)
    requires i + j <= |text|
    ensures IndexOf(text, c, i + j) == i + IndexOf(text[i..], c, j)
  {
    var rest := text[i..];
    var k := IndexOf(rest, c, j);
    assert forall m :: 0 <= m < |rest| ==> rest[m] == text[i + m];
    assert forall m :: i + j <= m < i + k ==> text[m] == rest[m - i];
  }

  lemma {:induction false} NameEndShift(u: Characters, text: string, i: nat, j: nat)
    requires i + j <= |text|
    ensures NameEnd(u, text, i + j) == i + NameEnd(u, text[i..], j)
    decreases |text| - i - j
  {
    if i + j < |text| {
      NameEndShift(u, text, i, j + 1);
    }
  }

  lemma BraceShift(u: Characters, input: string, i: nat, j: nat)
    requires i + j + 1 < |input| && input[i + j] == '$' && input[i + j + 1] == '{'
    ensures var (piece, next) := PieceAt(u, input[i..], j); PieceAt(u, input, i + j) == (piece, i + next)
  {
    var rest := input[i..];
    IndexShift(input, '}', i, j + 2);
    var end := IndexOf(rest, '}', j + 2);
    assert rest[j + 2..end] == input[i + j + 2..i + end];
    assert rest[j + 2..] == input[i + j + 2..];
  }

  lemma NameShift(u: Characters, input: string, i: nat, j: nat)
    requires i + j + 1 < |input| && input[i + j] == '$' && input[i + j + 1] != '{'
    ensures var (piece, next) := PieceAt(u, input[i..], j); PieceAt(u, input, i + j) == (piece, i + next)
  {
    var rest := input[i..];
    NameEndShift(u, input, i, j + 1);
    var end := NameEnd(u, rest, j + 1);
    assert rest[j + 1..end] == input[i + j + 1..i + end];
  }

  /** A piece depends on the text from where it begins, and on nothing before. */
  lemma PieceShift(u: Characters, input: string, i: nat, j: nat)
    requires i + j < |input|
    ensures var (piece, next) := PieceAt(u, input[i..], j); PieceAt(u, input, i + j) == (piece, i + next)
  {
    if input[i + j] == '$' && i + j + 1 < |input| {
      if input[i + j + 1] == '{' {
        BraceShift(u, input, i, j);
      } else {
        NameShift(u, input, i, j);
      }
    }
  }

  lemma {:induction false} PiecesShift(u: Characters, input: string, i: nat, j: nat)
    requires i + j <= |input|
    ensures PiecesFrom(u, input, i + j) == PiecesFrom(u, input[i..], j)
    decreases |input| - i - j
  {
    if i + j < |input| {
      PieceShift(u, input, i, j);
      PiecesShift(u, input, i, PieceAt(u, input[i..], j).1);
    }
  }

  /** The first piece's value, and then what the rest of the text expands to. */
  lemma ExpandFront(u: Characters, input: string, env: Variables)
    requires input != ""
    ensures var (piece, next) := PieceAt(u, input, 0);
      Expand(u, input, env) == Append(Value(u, piece, env), Expand(u, input[next..], env))
  {
    var next := PieceAt(u, input, 0).1;
    ExpandFromStep(u, input, 0, env);
    PiecesShift(u, input, next, 0);
  }

  lemma BracedPiece(u: Characters, expression: string, rest: string)
    requires '}' !in expression
    ensures var input := "${" + expression + "}" + rest;
      && PieceAt(u, input, 0) == (Braced(expression), |expression| + 3)
      && input[|expression| + 3..] == rest
  {
    var input := "${" + expression + "}" + rest;
    var end := |expression| + 2;
    assert input[0] == '$' && input[1] == '{' && input[end] == '}';
    assert forall j :: 2 <= j < end ==> input[j] == expression[j - 2];
    assert IndexOf(input, '}', 2) == end;
    assert input[2..end] == expression;
  }

  lemma ExpandBraced(u: Characters, expression: string, rest: string, env: Variables)
    requires '}' !in expression
    ensures Expand(u, "${" + expression + "}" + rest, env)
            == Append(BracedValue(u, expression, env), Expand(u, rest, env))
  {
    BracedPiece(u, expression, rest);
    ExpandFront(u, "${" + expression + "}" + rest, env);
  }

  /** The first `:-` is the one behind a part that has none. */
  lemma SplitAtFallback(name: string, fallback: string)
    requires !Contains(name, ":-")
    ensures SplitOnceAt(name + ":-" + fallback, ":-") == Some((name, fallback))
  {
    var text := name + ":-" + fallback;
    FindExactly(text, ":-", 0);
    assert text[|name|..] == ":-" + fallback;
    forall j | 0 <= j < |name|
      ensures !(":-" <= text[j..])
    {
      if ":-" <= text[j..] {
        assert text[j..][0] == text[j] == name[j] && text[j..][1] == text[j + 1] == '-';
        assert j + 1 < |name| && name[j + 1] == text[j + 1];
        assert name[j..j + 2] == ":-";
        ContainedAt(name, ":-", j);
      }
    }
    assert text[..|name|] == name && text[|name| + 2..] == fallback;
  }

  lemma NoFallback(name: string)
    requires !Contains(name, ":-")
    ensures SplitOnceAt(name, ":-").None?
  {
    NotContained(name, ":-");
  }

  lemma ContainsColon(text: string)
    ensures Contains(text, ":-") ==> ':' in text
  {
    if Contains(text, ":-") {
      var i :| 0 <= i <= |text| - 2 && text[i..][..2] == ":-";
      assert text[i] == text[i..][..2][0];
    }
  }

  lemma NameIsPlain(u: Characters, name: string)
    requires Punctuated(u) && Name(u, name)
    ensures '}' !in name && !Contains(name, ":-")
  {
    assert forall i :: 0 <= i < |name| ==> name[i] !in {'$', '{', '}', ':', '-'};
    ContainsColon(name);
  }

  /** `${name:-fallback}` stands for the variable if it is set, even to the empty
      text, and for the fallback, as it is written, only if it is not. */
  lemma FallbackOnlyIfUnset(u: Characters, name: string, fallback: string, rest: string, env: Variables)
    requires Punctuated(u) && Name(u, name) && '}' !in fallback
    ensures Expand(u, "${" + name + ":-" + fallback + "}" + rest, env)
            == Append(Ok(if name in env then env[name] else fallback), Expand(u, rest, env))
  {
    var expression := name + ":-" + fallback;
    NameIsPlain(u, name);
    assert "${" + name + ":-" + fallback + "}" + rest == "${" + expression + "}" + rest;
    ExpandBraced(u, expression, rest, env);
    SplitAtFallback(name, fallback);
  }

  /** `${name}` stands for the variable, and fails without it. */
  lemma BracedNameExpands(u: Characters, name: string, rest: string, env: Variables)
    requires Punctuated(u) && Name(u, name)
    ensures Expand(u, "${" + name + "}" + rest, env)
            == Append(if name in env then Ok(env[name]) else Err(MissingVariable(name)), Expand(u, rest, env))
  {
    NameIsPlain(u, name);
    ExpandBraced(u, name, rest, env);
    NoFallback(name);
  }

  lemma InvalidNameWithFallback(
    u: Characters, name: string, fallback: string, rest: string, env: Variables)
    requires !Name(u, name) && '}' !in name && !Contains(name, ":-") && '}' !in fallback
    ensures Expand(u, "${" + name + ":-" + fallback + "}" + rest, env) == Err(InvalidVariable(name))
  {
    var expression := name + ":-" + fallback;
    assert "${" + name + ":-" + fallback + "}" + rest == "${" + expression + "}" + rest;
    ExpandBraced(u, expression, rest, env);
    SplitAtFallback(name, fallback);
  }

  /** What is no name, in braces, with a fallback or without, is refused by name. */
  lemma InvalidNameIsRefused(u: Characters, name: string, fallback: string, rest: string, env: Variables)
    requires !Name(u, name) && '}' !in name && !Contains(name, ":-") && '}' !in fallback
    ensures Expand(u, "${" + name + "}" + rest, env) == Err(InvalidVariable(name))
    ensures Expand(u, "${" + name + ":-" + fallback + "}" + rest, env) == Err(InvalidVariable(name))
  {
    ExpandBraced(u, name, rest, env);
    NoFallback(name);
    InvalidNameWithFallback(u, name, fallback, rest, env);
  }

  lemma {:induction false} NameEndAt(u: Characters, text: string, from: nat, end: nat)
    requires from <= end <= |text|
    requires forall i :: from <= i < end ==> text[i] == '_' || u.alphabetic(text[i]) || u.numeric(text[i])
    requires end < |text| ==> text[end] != '_' && !u.alphabetic(text[end]) && !u.numeric(text[end])
    ensures NameEnd(u, text, from) == end
    decreases end - from
  {
    if from < end {
      NameEndAt(u, text, from + 1, end);
    }
  }

  /** `$name` before a character that continues no name stands for the variable,
      and fails without it. */
  lemma BareNameExpands(u: Characters, name: string, rest: string, env: Variables)
    requires Punctuated(u) && Name(u, name)
    requires rest != "" ==> rest[0] != '_' && !u.alphabetic(rest[0]) && !u.numeric(rest[0])
    ensures Expand(u, "$" + name + rest, env)
            == Append(if name in env then Ok(env[name]) else Err(MissingVariable(name)), Expand(u, rest, env))
  {
    var input := "$" + name + rest;
    var end := |name| + 1;
    assert forall i :: 1 <= i < end ==> input[i] == name[i - 1];
    assert end < |input| ==> input[end] == rest[0];
    assert input[1] == name[0];
    NameEndAt(u, input, 1, end);
    assert input[1..end] == name && input[end..] == rest;
    ExpandFront(u, input, env);
  }

  /** An open brace that is never closed fails. */
  lemma OpenBraceFails(u: Characters, text: string, env: Variables)
    requires '}' !in text
    ensures Expand(u, "${" + text, env) == Err(UnterminatedExpression)
  {
    var input := "${" + text;
    assert forall j :: 2 <= j < |input| ==> input[j] == text[j - 2];
    assert IndexOf(input, '}', 2) == |input|;
    ExpandFront(u, input, env);
  }

  /** A dollar sign before anything else, and any other character, stand for
      themselves. */
  lemma CharacterExpands(u: Characters, c: char, rest: string, env: Variables)
    requires c == '$' && rest != "" ==> rest[0] != '{' && rest[0] != '_' && !u.alphabetic(rest[0])
    ensures Expand(u, [c] + rest, env) == Append(Ok([c]), Expand(u, rest, env))
  {
    var input := [c] + rest;
    assert input[1..] == rest;
    ExpandFront(u, input, env);
  }

  /** Nothing expands to nothing. With the lemmas above this determines what every
      text expands to. */
  lemma NothingExpands(u: Characters, env: Variables)
    ensures Expand(u, "", env) == Ok("")
  {
  }

  /** A command of nothing but whitespace is refused, and so is one that is never
      closed; the text before it has been expanded by then. */
  lemma CommandsAreRefused(
    u: Characters, prefix: string, blank: string, rest: string, open: string, env: Variables, shell: Shell)
    requires !Contains(prefix, "$(") && Blank(blank) && ')' !in blank && ')' !in open
    ensures ExpandCommands(u, prefix + "$(" + blank + ")" + rest, env, shell)
            == Append(Expand(u, prefix, env), Err(InvalidVariable("command substitution")))
    ensures ExpandCommands(u, prefix + "$(" + open, env, shell)
            == Append(Expand(u, prefix, env), Err(UnterminatedExpression))
  {
    FirstCommand(prefix, blank, rest);
    TrimExactly(blank);
    OpenCommand(prefix, open);
  }

  lemma OpenCommand(prefix: string, open: string)
    requires !Contains(prefix, "$(") && ')' !in open
    ensures CutAtCommand(prefix + "$(" + open) == Some(Cut(prefix, None, ""))
  {
    var input := prefix + "$(" + open;
    assert input == prefix + ("$(" + open);
    FindSkips(prefix, "$(" + open);
    assert forall j :: |prefix| + 2 <= j < |input| ==> input[j] == open[j - |prefix| - 2];
    assert IndexOf(input, ')', |prefix| + 2) == |input|;
    assert input[..|prefix|] == prefix;
  }
}
