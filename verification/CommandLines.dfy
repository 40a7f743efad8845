/** Command lines put together from plain words, quoted texts, redirections and operators, and how the shell reads them. */
module CommandLines {
  import opened Shell
  import opened Wrappers
  import Decimal

  datatype Arg = Bare(word: string) | Quoted(text: string) | Redirect(descriptor: string, target: string)

  datatype Link = Sequence | AndThen | OrElse | Last

  datatype Command = Command(args: seq<Arg>, link: Link)

  function ArgText(a: Arg): string {
    match a
    case Bare(w) => w
    case Quoted(t) => Quote(t)
    case Redirect(fd, target) => fd + ">" + target
  }

  function ArgsText(args: seq<Arg>): string {
    if args == [] then ""
    else if |args| == 1 then ArgText(args[0])
    else ArgText(args[0]) + " " + ArgsText(args[1..])
  }

  function LinkText(l: Link): string {
    match l
    case Sequence => "; "
    case AndThen => " && "
    case OrElse => " || "
    case Last => ""
  }

  function Text(script: seq<Command>): string {
    if script == [] then "" else ArgsText(script[0].args) + LinkText(script[0].link) + Text(script[1..])
  }

  predicate IsBareChar(c: char) {
    !IsBlank(c) && !StartsOperator(c) && !Expands(c) && !Globs(c) && c != '\'' && c != '"' && c != '\\' && c != '\n' && c != '#'
  }

  predicate AllBare(w: string) {
    w != "" && forall i :: 0 <= i < |w| ==> IsBareChar(w[i])
  }

  predicate HasBracket(w: string) {
    exists i, j :: 0 <= i < j < |w| && w[i] == '[' && w[j] == ']'
  }

  predicate IsBare(w: string) {
    AllBare(w) && !HasBracket(w)
  }

  predicate ArgWellFormed(a: Arg) {
    match a
    case Bare(w) => IsBare(w)
    case Quoted(_) => true
    case Redirect(fd, target) => fd != "" && Decimal.AllDigits(fd) && IsBare(target) && target[0] != '-'
  }

  predicate ArgsWellFormed(args: seq<Arg>) {
    args != [] && forall i :: 0 <= i < |args| ==> ArgWellFormed(args[i])
  }

  predicate WellFormed(script: seq<Command>) {
    script != [] && forall i :: 0 <= i < |script| ==>
      ArgsWellFormed(script[i].args) && (script[i].link == Last <==> i == |script| - 1)
  }

  // What the shell is to make of it: quoted text is one word and nothing else.
  function ArgTokens(a: Arg): seq<Token> {
    match a
    case Bare(w) => [Word(w)]
    case Quoted(t) => [Word(t)]
    case Redirect(fd, target) => [IoNumber(fd), Operator(">"), Word(target)]
  }

  function ArgsTokens(args: seq<Arg>): seq<Token> {
    if args == [] then [] else ArgTokens(args[0]) + ArgsTokens(args[1..])
  }

  function LinkTokens(l: Link): seq<Token> {
    match l
    case Sequence => [Operator(";")]
    case AndThen => [Operator("&&")]
    case OrElse => [Operator("||")]
    case Last => []
  }

  function Meaning(script: seq<Command>): seq<Token> {
    if script == [] then [] else ArgsTokens(script[0].args) + LinkTokens(script[0].link) + Meaning(script[1..])
  }

  // ---------- reading them ----------

  // The reader stands at the end of a word, having seen `done` with it.
  predicate AtWord(s: State, done: seq<Token>) {
    s.State? && s.mode == Plain && s.partial.InWord? && s.done + Flush(s.partial) == done
  }

  function Between(done: seq<Token>): State {
    State(Plain, NoToken, done)
  }

  lemma RunOne(s: State, c: char)
    ensures Run(s, [c]) == Step(s, c)
  {
    assert [c][1..] == "";
  }

  lemma {:induction false} BareIsVerbatim(s: State, w: string)
    requires s.State? && s.mode == Plain && AllBare(w) && !HasBracket(Taken(s.partial) + w)
    requires s.partial.InOperator? ==> !Continues(s.partial.text, w[0])
    ensures Run(s, w) == Grow(s, Plain, w, false)
    decreases |w|
  {
    var taken := Taken(s.partial);
    var t := Grow(s, Plain, [w[0]], false);
    assert Step(s, w[0]) == t by {
      assert (taken + w)[|taken|] == w[0];
      assert forall i :: 0 <= i < |taken| ==> taken[i] == (taken + w)[i];
    }
    if w[1..] == "" {
      assert w == [w[0]];
    } else {
      assert taken + [w[0]] + w[1..] == taken + w;
      BareIsVerbatim(t, w[1..]);
    }
  }

  lemma GapIsRead(s: State, done: seq<Token>)
    requires AtWord(s, done)
    ensures Run(s, " ") == Between(done)
  {
    RunOne(s, ' ');
  }

  lemma RunThrough(s: State, a: string, t: State, b: string, u: State)
    requires Run(s, a) == t && Run(t, b) == u
    ensures Run(s, a + b) == u
  {
    RunConcat(s, a, b);
  }

  lemma ArrowIsRead(done: seq<Token>, fd: string)
    requires Decimal.AllDigits(fd)
    ensures Run(State(Plain, InWord(fd, false), done), ">") == State(Plain, InOperator(">"), done + [IoNumber(fd)])
  {
    RunOne(State(Plain, InWord(fd, false), done), '>');
  }

  lemma DescriptorIsRead(done: seq<Token>, fd: string)
    requires fd != "" && Decimal.AllDigits(fd)
    ensures Run(Between(done), fd + ">") == State(Plain, InOperator(">"), done + [IoNumber(fd)])
  {
    assert IsBare(fd);
    assert "" + fd == fd;
    BareIsVerbatim(Between(done), fd);
    ArrowIsRead(done, fd);
    RunConcat(Between(done), fd, ">");
  }

  lemma RedirectIsRead(done: seq<Token>, fd: string, target: string)
    requires ArgWellFormed(Redirect(fd, target))
    ensures AtWord(Run(Between(done), ArgText(Redirect(fd, target))), done + ArgTokens(Redirect(fd, target)))
  {
    var u := State(Plain, InOperator(">"), done + [IoNumber(fd)]);
    DescriptorIsRead(done, fd);
    assert "" + target == target;
    BareIsVerbatim(u, target);
    RunThrough(Between(done), fd + ">", u, target, Grow(u, Plain, target, false));
  }

  lemma ArgIsRead(done: seq<Token>, a: Arg)
    requires ArgWellFormed(a)
    ensures AtWord(Run(Between(done), ArgText(a)), done + ArgTokens(a))
  {
    match a
    case Bare(w) => assert "" + w == w; BareIsVerbatim(Between(done), w);
    case Quoted(t) => QuoteIsVerbatim(Between(done), t); assert "" + t == t;
    case Redirect(fd, target) => RedirectIsRead(done, fd, target);
  }

  lemma NextArgIsRead(s: State, first: string, next: seq<Token>, rest: string)
    requires AtWord(Run(s, first), next)
    ensures Run(s, first + " " + rest) == Run(Between(next), rest)
  {
    GapIsRead(Run(s, first), next);
    RunThrough(s, first, Run(s, first), " ", Between(next));
    RunConcat(s, first + " ", rest);
  }

  lemma Assoc<T>(a: seq<T>, b: seq<T>, c: seq<T>)
    ensures a + b + c == a + (b + c)
  {
  }

  lemma OneArg(args: seq<Arg>)
    requires |args| == 1
    ensures ArgsText(args) == ArgText(args[0]) && ArgsTokens(args) == ArgTokens(args[0])
  {
    assert ArgsTokens(args[1..]) == [];
  }

  lemma {:induction false} ArgsAreRead(done: seq<Token>, args: seq<Arg>)
    requires ArgsWellFormed(args)
    ensures AtWord(Run(Between(done), ArgsText(args)), done + ArgsTokens(args))
    decreases |args|
  {
    ArgIsRead(done, args[0]);
    if |args| == 1 {
      OneArg(args);
    } else {
      var next := done + ArgTokens(args[0]);
      ArgsAreRead(next, args[1..]);
      NextArgIsRead(Between(done), ArgText(args[0]), next, ArgsText(args[1..]));
      Assoc(done, ArgTokens(args[0]), ArgsTokens(args[1..]));
    }
  }

  lemma LinkIsRead(s: State, done: seq<Token>, l: Link)
    requires AtWord(s, done) && l != Last
    ensures Run(s, LinkText(l)) == Between(done + LinkTokens(l))
  {
    if l == Sequence {
      var t := State(Plain, InOperator(";"), done);
      RunOne(s, ';');
      RunOne(t, ' ');
      RunThrough(s, ";", t, " ", Between(done + [Operator(";")]));
      assert ";" + " " == LinkText(l);
    } else {
      var c := if l == AndThen then '&' else '|';
      GapIsRead(s, done);
      DoubledIsRead(done, c);
      RunThrough(s, " ", Between(done), [c, c, ' '], Between(done + [Operator([c, c])]));
      assert " " + [c, c, ' '] == LinkText(l);
    }
  }

  lemma DoubledIsRead(done: seq<Token>, c: char)
    requires c == '&' || c == '|'
    ensures Run(Between(done), [c, c, ' ']) == Between(done + [Operator([c, c])])
  {
    var s1, s2, s3 := Between(done), State(Plain, InOperator([c]), done), State(Plain, InOperator([c, c]), done);
    RunOne(s1, c);
    RunOne(s2, c);
    RunOne(s3, ' ');
    RunThrough(s1, [c], s2, [c], s3);
    RunThrough(s1, [c] + [c], s3, " ", Between(done + [Operator([c, c])]));
    assert [c] + [c] + " " == [c, c, ' '];
  }

  lemma {:induction false} ScriptIsRead(done: seq<Token>, script: seq<Command>)
    requires WellFormed(script)
    ensures AtWord(Run(Between(done), Text(script)), done + Meaning(script))
    decreases |script|
  {
    var c := script[0];
    if |script| == 1 {
      ArgsAreRead(done, c.args);
      OneCommand(c);
      assert script == [c];
    } else {
      var seen := done + (ArgsTokens(c.args) + LinkTokens(c.link));
      CommandIsRead(done, c);
      ScriptIsRead(seen, script[1..]);
      RunConcat(Between(done), ArgsText(c.args) + LinkText(c.link), Text(script[1..]));
      Assoc(done, ArgsTokens(c.args) + LinkTokens(c.link), Meaning(script[1..]));
    }
  }

  lemma OneCommand(c: Command)
    requires c.link == Last
    ensures Text([c]) == ArgsText(c.args) && Meaning([c]) == ArgsTokens(c.args)
  {
    assert [c][1..] == [] && Text([]) == "" && Meaning([]) == [];
    assert ArgsText(c.args) + "" + "" == ArgsText(c.args);
    assert ArgsTokens(c.args) + [] + [] == ArgsTokens(c.args);
  }

  lemma CommandIsRead(done: seq<Token>, c: Command)
    requires ArgsWellFormed(c.args) && c.link != Last
    ensures Run(Between(done), ArgsText(c.args) + LinkText(c.link)) ==
            Between(done + (ArgsTokens(c.args) + LinkTokens(c.link)))
  {
    Assoc(done, ArgsTokens(c.args), LinkTokens(c.link));
    ArgsAreRead(done, c.args);
    var s := Run(Between(done), ArgsText(c.args));
    LinkIsRead(s, done + ArgsTokens(c.args), c.link);
    RunConcat(Between(done), ArgsText(c.args), LinkText(c.link));
  }

  // The shell reads a command exactly as it was meant, whatever the quoted texts contain.
  lemma TextMeans(script: seq<Command>)
    requires WellFormed(script)
    ensures Tokens(Text(script)) == Some(Meaning(script))
  {
    ScriptIsRead([], script);
    assert [] + Meaning(script) == Meaning(script);
  }

  // ---------- quoted lists ----------

  function QuotedArgs(ws: seq<string>): (args: seq<Arg>)
    ensures |args| == |ws| && forall i :: 0 <= i < |ws| ==> args[i] == Quoted(ws[i])
  {
    seq(|ws|, i requires 0 <= i < |ws| => Quoted(ws[i]))
  }

  function JoinQuoted(ws: seq<string>): string {
    if ws == [] then "" else if |ws| == 1 then Quote(ws[0]) else Quote(ws[0]) + " " + JoinQuoted(ws[1..])
  }

  function Words(ws: seq<string>): (ts: seq<Token>)
    ensures |ts| == |ws| && forall i :: 0 <= i < |ws| ==> ts[i] == Word(ws[i])
  {
    seq(|ws|, i requires 0 <= i < |ws| => Word(ws[i]))
  }

  lemma {:induction false} QuotedArgsAreWords(ws: seq<string>)
    ensures ArgsText(QuotedArgs(ws)) == JoinQuoted(ws) && ArgsTokens(QuotedArgs(ws)) == Words(ws)
  {
    if |ws| == 1 {
      OneArg(QuotedArgs(ws));
      assert [Word(ws[0])] == Words(ws);
    } else if |ws| > 1 {
      QuotedArgsAreWords(ws[1..]);
      assert QuotedArgs(ws)[1..] == QuotedArgs(ws[1..]);
      assert ArgTokens(QuotedArgs(ws)[0]) == [Word(ws[0])];
      assert [Word(ws[0])] + Words(ws[1..]) == Words(ws);
    }
  }

  // Splitting undoes quoting and joining, for every list of strings.
  lemma SplittingUndoesQuoting(ws: seq<string>)
    ensures Tokens(JoinQuoted(ws)) == Some(Words(ws))
  {
    if ws == [] {
      assert Run(START, JoinQuoted(ws)) == START;
      assert [] + Flush(NoToken) == Words(ws);
    } else {
      QuotedArgsAreWords(ws);
      var c := Command(QuotedArgs(ws), Last);
      TextMeans([c]);
      OneCommand(c);
    }
  }
}
