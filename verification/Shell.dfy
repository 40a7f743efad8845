/**
 Commands built for a node and run by the shell of a container. The reader is the token recognition
 of the POSIX shell (POSIX.1-2017 Shell Command Language, sections 2.2 and 2.3) with quotes removed.
 It gives up on text that would be expanded, so a result also says that nothing in it is.
 */
module Shell {
  import opened Wrappers
  import Decimal

  // ---------- the reader ----------

  datatype Token = Word(text: string) | Operator(text: string) | IoNumber(text: string)

  datatype Mode = Plain | SingleQuoted | DoubleQuoted | Escaped | EscapedInDouble | Comment

  datatype Partial = NoToken | InWord(text: string, quoted: bool) | InOperator(text: string)

  datatype State = State(mode: Mode, partial: Partial, done: seq<Token>) | Unreadable

  const START := State(Plain, NoToken, [])

  predicate IsBlank(c: char) {
    c == ' ' || c == '\t'
  }

  predicate StartsOperator(c: char) {
    c == '|' || c == '&' || c == ';' || c == '<' || c == '>' || c == '(' || c == ')'
  }

  // Parameter, command and pathname expansion are not modelled.
  predicate Expands(c: char) {
    c == '$' || c == '`'
  }

  predicate Globs(c: char) {
    c == '*' || c == '?' || c == '~'
  }

  // An unquoted "]" may close a bracket expression when there is a "[" before it in the word.
  predicate ClosesBracket(p: Partial, c: char) {
    c == ']' && '[' in Taken(p)
  }

  predicate Continues(operator: string, c: char) {
    match c
    case '&' => operator == "&" || operator == "<" || operator == ">"
    case '|' => operator == "|" || operator == ">"
    case ';' => operator == ";"
    case '<' => operator == "<"
    case '>' => operator == ">" || operator == "<"
    case '-' => operator == "<<"
    case _ => false
  }

  function Flush(p: Partial): seq<Token> {
    match p
    case NoToken => []
    case InWord(w, _) => [Word(w)]
    case InOperator(o) => [Operator(o)]
  }

  // A word of digits before a redirection names a file descriptor.
  function FlushBefore(p: Partial, c: char): seq<Token> {
    if (c == '<' || c == '>') && p.InWord? && !p.quoted && Decimal.AllDigits(p.text) then [IoNumber(p.text)] else Flush(p)
  }

  function Taken(p: Partial): string {
    if p.InWord? then p.text else ""
  }

  function Grow(s: State, mode: Mode, text: string, quoted: bool): State
    requires s.State?
  {
    State(mode, InWord(Taken(s.partial) + text, quoted || (s.partial.InWord? && s.partial.quoted)),
          if s.partial.InOperator? then s.done + Flush(s.partial) else s.done)
  }

  function StepPlain(s: State, c: char): State
    requires s.State?
  {
    if s.partial.InOperator? && Continues(s.partial.text, c) then s.(partial := InOperator(s.partial.text + [c]))
    else if c == '\'' then Grow(s, SingleQuoted, "", true)
    else if c == '"' then Grow(s, DoubleQuoted, "", true)
    else if c == '\\' then s.(mode := Escaped)
    else if Expands(c) || Globs(c) || ClosesBracket(s.partial, c) then Unreadable
    else if StartsOperator(c) then State(Plain, InOperator([c]), s.done + FlushBefore(s.partial, c))
    else if c == '\n' then State(Plain, NoToken, s.done + Flush(s.partial) + [Operator("\n")])
    else if IsBlank(c) then State(Plain, NoToken, s.done + Flush(s.partial))
    else if c == '#' && !s.partial.InWord? then State(Comment, NoToken, s.done + Flush(s.partial))
    else Grow(s, Plain, [c], false)
  }

  function Step(s: State, c: char): State {
    if s.Unreadable? then s else
    match s.mode
    case Plain => StepPlain(s, c)
    case SingleQuoted => if c == '\'' then s.(mode := Plain) else Grow(s, SingleQuoted, [c], true)
    case DoubleQuoted =>
      if c == '"' then s.(mode := Plain)
      else if Expands(c) then Unreadable
      else if c == '\\' then s.(mode := EscapedInDouble)
      else Grow(s, DoubleQuoted, [c], true)
    case Escaped => if c == '\n' then s.(mode := Plain) else Grow(s, Plain, [c], true)
    case EscapedInDouble =>
      if c == '\n' then s.(mode := DoubleQuoted)
      else if Expands(c) || c == '"' || c == '\\' then Grow(s, DoubleQuoted, [c], true)
      else Grow(s, DoubleQuoted, ['\\', c], true)
    case Comment => if c == '\n' then State(Plain, NoToken, s.done + [Operator("\n")]) else s
  }

  function Run(s: State, text: string): State
    decreases |text|
  {
    if text == "" then s else Run(Step(s, text[0]), text[1..])
  }

  // The tokens of a command, unless a quote is left open or something would be expanded.
  function Tokens(text: string): Option<seq<Token>> {
    var s := Run(START, text);
    if s.State? && (s.mode == Plain || s.mode == Comment) then Some(s.done + Flush(s.partial)) else None
  }

  lemma {:induction false} RunConcat(s: State, a: string, b: string)
    ensures Run(s, a + b) == Run(Run(s, a), b)
    decreases |a|
  {
    if a == "" {
      assert a + b == b;
    } else {
      assert (a + b)[1..] == a[1..] + b;
      RunConcat(Step(s, a[0]), a[1..], b);
    }
  }

  // ---------- quoting ----------

  function EscapeChar(c: char): string {
    if c == '\'' then "'\"'\"'" else [c]
  }

  function Escape(s: string): string {
    if s == "" then "" else EscapeChar(s[0]) + Escape(s[1..])
  }

  function Quote(s: string): string {
    "'" + Escape(s) + "'"
  }

  lemma FiveSteps(s: State)
    requires s.State? && s.mode == SingleQuoted && s.partial.InWord?
    ensures Run(s, "'\"'\"'") == s.(partial := InWord(s.partial.text + "'", true))
  {
    var q := "'\"'\"'";
    var s1 := Step(s, '\'');
    var s2 := Step(s1, '"');
    var s3 := Step(s2, '\'');
    var s4 := Step(s3, '"');
    var s5 := Step(s4, '\'');
    assert q[1..] == "\"'\"'" && q[1..][1..] == "'\"'" && q[1..][1..][1..] == "\"'";
    assert q[1..][1..][1..][1..] == "'" && q[1..][1..][1..][1..][1..] == "";
    assert Run(s, q) == Run(s1, "\"'\"'") == Run(s2, "'\"'") == Run(s3, "\"'") == Run(s4, "'") == Run(s5, "");
    assert s5.partial.text == s.partial.text + "'";
  }

  lemma EscapedCharIsVerbatim(s: State, c: char)
    requires s.State? && s.mode == SingleQuoted && s.partial.InWord? && s.partial.quoted
    ensures Run(s, EscapeChar(c)) == s.(partial := InWord(s.partial.text + [c], true))
  {
    if c == '\'' {
      FiveSteps(s);
    } else {
      assert [c][1..] == "";
      assert Run(s, [c]) == Run(Step(s, c), "");
    }
  }

  lemma {:induction false} EscapedIsVerbatim(s: State, text: string)
    requires s.State? && s.mode == SingleQuoted && s.partial.InWord? && s.partial.quoted
    ensures Run(s, Escape(text)) == s.(partial := InWord(s.partial.text + text, true))
    decreases |text|
  {
    if text == "" {
      assert s.partial.text + text == s.partial.text;
    } else {
      EscapedCharIsVerbatim(s, text[0]);
      RunConcat(s, EscapeChar(text[0]), Escape(text[1..]));
      EscapedIsVerbatim(s.(partial := InWord(s.partial.text + [text[0]], true)), text[1..]);
      assert s.partial.text + [text[0]] + text[1..] == s.partial.text + text;
    }
  }

  // Whatever the text, its quoted form extends the current word by exactly that text.
  lemma QuoteIsVerbatim(s: State, text: string)
    requires s.State? && s.mode == Plain
    ensures Run(s, Quote(text)) == Grow(s, Plain, text, true)
  {
    var open := Step(s, '\'');
    var body := Escape(text);
    assert Quote(text)[0] == '\'' && Quote(text)[1..] == body + "'";
    EscapedIsVerbatim(open, text);
    RunConcat(open, body, "'");
    var end := Run(open, body);
    assert "'"[1..] == "";
    assert Run(end, "'") == Run(Step(end, '\''), "") == Step(end, '\'');
    assert Taken(s.partial) + "" + text == Taken(s.partial) + text;
  }
}
