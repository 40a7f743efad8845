/**
 Substitution of ${VAR}, ${VAR-default}, ${VAR:-default} and $VAR in compose text. The scanner does what
 the left-to-right replacement of the pattern
   \$\{([A-Za-z_][A-Za-z0-9_]*)(?::?-([^}]*))?\}|\$([A-Za-z_][A-Za-z0-9_]*)
 does; a dollar sign that starts no match is kept.
 */
module EnvSubst {
  import opened Wrappers

  type Env = map<string, string>

  predicate NameStart(c: char) {
    'A' <= c <= 'Z' || 'a' <= c <= 'z' || c == '_'
  }

  predicate NameChar(c: char) {
    NameStart(c) || '0' <= c <= '9'
  }

  predicate IsName(s: string) {
    s != "" && NameStart(s[0]) && forall i :: 0 <= i < |s| ==> NameChar(s[i])
  }

  // Length of the longest run of name characters.
  function NameRun(s: string): (n: nat)
    ensures n <= |s|
    ensures forall i :: 0 <= i < n ==> NameChar(s[i])
    ensures n < |s| ==> !NameChar(s[n])
  {
    if s == "" || !NameChar(s[0]) then 0 else 1 + NameRun(s[1..])
  }

  function NameLength(s: string): (n: nat)
    ensures n <= |s|
  {
    if s == "" || !NameStart(s[0]) then 0 else NameRun(s)
  }

  function IndexOf(s: string, c: char): (i: Option<nat>)
    ensures i.Some? ==> i.value < |s| && s[i.value] == c && forall k :: 0 <= k < i.value ==> s[k] != c
    ensures i.None? ==> forall k :: 0 <= k < |s| ==> s[k] != c
  {
    if s == "" then None
    else if s[0] == c then Some(0)
    else match IndexOf(s[1..], c)
      case None => None
      case Some(i) => Some(i + 1)
  }

  // A match at the start of the text: the variable, its default, and how much text it takes.
  datatype Match = Match(name: string, default: string, length: nat)

  // After the opening brace: an optional colon and hyphen introduce the default.
  function MatchBody(body: string): (m: Option<Match>)
    ensures m.Some? ==> 0 < m.value.length <= |body|
  {
    var n := NameLength(body);
    if n == 0 || n == |body| then None
    else if body[n] == '}' then Some(Match(body[..n], "", n + 1))
    else match MatchDefault(body[if body[n] == ':' then n + 1 else n..])
      case None => None
      case Some((d, length)) => Some(Match(body[..n], d, (if body[n] == ':' then n + 1 else n) + length))
  }

  function MatchDefault(s: string): (m: Option<(string, nat)>)
    ensures m.Some? ==> 0 < m.value.1 <= |s|
  {
    if s == "" || s[0] != '-' then None
    else match IndexOf(s[1..], '}')
      case None => None
      case Some(e) => Some((s[1..][..e], e + 2))
  }

  function MatchAt(s: string): (m: Option<Match>)
    ensures m.Some? ==> 0 < m.value.length <= |s|
  {
    if |s| < 2 || s[0] != '$' then None
    else if s[1] == '{' then
      match MatchBody(s[2..])
      case None => None
      case Some(m) => Some(m.(length := m.length + 2))
    else
      var n := NameLength(s[1..]);
      if n == 0 then None else Some(Match(s[1..][..n], "", n + 1))
  }

  // An empty value counts as missing, for the form without a colon too.
  function Lookup(env: Env, name: string, default: string): string {
    if name in env && env[name] != "" then env[name] else default
  }

  function Subst(s: string, env: Env): string
    decreases |s|
  {
    if s == "" then ""
    else match MatchAt(s)
      case Some(m) => Lookup(env, m.name, m.default) + Subst(s[m.length..], env)
      case None => [s[0]] + Subst(s[1..], env)
  }

  // ---------- templates ----------

  datatype Piece =
    | Literal(text: string)
    | Var(name: string)
    | VarOr(name: string, default: string)
    | VarOrEmpty(name: string, default: string)
    | Short(name: string)

  function Print(p: Piece): string {
    match p
    case Literal(t) => t
    case Var(n) => "${" + n + "}"
    case VarOr(n, d) => "${" + n + "-" + d + "}"
    case VarOrEmpty(n, d) => "${" + n + ":-" + d + "}"
    case Short(n) => "$" + n
  }

  function Eval(p: Piece, env: Env): string {
    match p
    case Literal(t) => t
    case Var(n) => Lookup(env, n, "")
    case VarOr(n, d) => Lookup(env, n, d)
    case VarOrEmpty(n, d) => Lookup(env, n, d)
    case Short(n) => Lookup(env, n, "")
  }

  predicate PieceOk(p: Piece) {
    match p
    case Literal(t) => '$' !in t
    case Var(n) => IsName(n)
    case VarOr(n, d) => IsName(n) && '}' !in d
    case VarOrEmpty(n, d) => IsName(n) && '}' !in d
    case Short(n) => IsName(n)
  }

  function PrintAll(ps: seq<Piece>): string {
    if ps == [] then "" else Print(ps[0]) + PrintAll(ps[1..])
  }

  function EvalAll(ps: seq<Piece>, env: Env): string {
    if ps == [] then "" else Eval(ps[0], env) + EvalAll(ps[1..], env)
  }

  // An unbraced name ends where its text does: what follows must not continue it.
  predicate TemplateOk(ps: seq<Piece>) {
    forall i :: 0 <= i < |ps| ==>
      PieceOk(ps[i]) && (ps[i].Short? ==> var rest := PrintAll(ps[i + 1..]); rest == "" || !NameChar(rest[0]))
  }

  lemma {:induction false} NameRunIs(n: string, rest: string)
    requires forall i :: 0 <= i < |n| ==> NameChar(n[i])
    requires rest == "" || !NameChar(rest[0])
    ensures NameRun(n + rest) == |n|
  {
    if n == "" {
      assert n + rest == rest;
    } else {
      assert (n + rest)[1..] == n[1..] + rest;
      NameRunIs(n[1..], rest);
    }
  }

  lemma {:induction false} IndexOfIs(d: string, c: char, rest: string)
    requires c !in d
    ensures IndexOf(d + [c] + rest, c) == Some(|d|)
  {
    if d != "" {
      assert (d + [c] + rest)[1..] == d[1..] + [c] + rest;
      IndexOfIs(d[1..], c, rest);
    }
  }

  lemma {:induction false} LiteralIsKept(t: string, rest: string, env: Env)
    requires '$' !in t
    ensures Subst(t + rest, env) == t + Subst(rest, env)
    decreases |t|
  {
    if t == "" {
      assert t + rest == rest;
      assert "" + Subst(rest, env) == Subst(rest, env);
    } else {
      var s := t + rest;
      assert t[0] in t && s[0] == t[0];
      assert MatchAt(s) == None;
      assert s[1..] == t[1..] + rest;
      LiteralIsKept(t[1..], rest, env);
      assert t == [t[0]] + t[1..];
      Concat3([t[0]], t[1..], Subst(rest, env));
    }
  }

  lemma Concat3(a: string, b: string, c: string)
    ensures a + b + c == a + (b + c)
  {
  }

  // The printed form of a variable is matched as a whole.
  lemma VarIsMatched(n: string, rest: string)
    requires IsName(n)
    ensures MatchAt("${" + n + "}" + rest) == Some(Match(n, "", |n| + 3))
  {
    var s := "${" + n + "}" + rest;
    var body := n + ("}" + rest);
    assert s[2..] == body;
    NameRunIs(n, "}" + rest);
    assert body[..|n|] == n;
  }

  lemma DefaultIsFound(d: string, rest: string)
    requires '}' !in d
    ensures MatchDefault("-" + d + "}" + rest) == Some((d, |d| + 2))
  {
    var s := "-" + d + "}" + rest;
    assert s[1..] == d + ['}'] + rest;
    IndexOfIs(d, '}', rest);
    assert s[1..][..|d|] == d;
  }

  lemma PlainBodyIsMatched(n: string, d: string, rest: string)
    requires IsName(n) && '}' !in d
    ensures MatchBody(n + ("-" + d + "}" + rest)) == Some(Match(n, d, |n| + |d| + 2))
  {
    var tail := "-" + d + "}" + rest;
    NameRunIs(n, tail);
    assert (n + tail)[..|n|] == n && (n + tail)[|n|..] == tail;
    DefaultIsFound(d, rest);
  }

  lemma ColonFirst(n: string, d: string, rest: string)
    ensures n + (":-" + d + "}" + rest) == n + (":" + ("-" + d + "}" + rest))
  {
  }

  lemma ColonBodyIsMatched(n: string, d: string, rest: string)
    requires IsName(n) && '}' !in d
    ensures MatchBody(n + (":-" + d + "}" + rest)) == Some(Match(n, d, |n| + |d| + 3))
  {
    ColonFirst(n, d, rest);
    var tail := "-" + d + "}" + rest;
    NameRunIs(n, ":" + tail);
    assert (n + (":" + tail))[..|n|] == n && (n + (":" + tail))[|n| + 1..] == tail;
    DefaultIsFound(d, rest);
  }

  predicate Opens(s: string, body: string) {
    |s| >= 2 && s[0] == '$' && s[1] == '{' && s[2..] == body
  }

  lemma BracedIsMatched(s: string, body: string, m: Match)
    requires Opens(s, body) && MatchBody(body) == Some(m)
    ensures MatchAt(s) == Some(m.(length := m.length + 2))
  {
  }

  lemma Regroup(n: string, sep: string, d: string, rest: string)
    ensures Opens("${" + n + sep + d + "}" + rest, n + (sep + d + "}" + rest))
  {
  }

  lemma PlainDefaultIsMatched(s: string, n: string, d: string, rest: string)
    requires IsName(n) && '}' !in d && Opens(s, n + ("-" + d + "}" + rest))
    ensures MatchAt(s) == Some(Match(n, d, |n| + |d| + 4))
  {
    PlainBodyIsMatched(n, d, rest);
    BracedIsMatched(s, n + ("-" + d + "}" + rest), Match(n, d, |n| + |d| + 2));
  }

  lemma ColonDefaultIsMatched(s: string, n: string, d: string, rest: string)
    requires IsName(n) && '}' !in d && Opens(s, n + (":-" + d + "}" + rest))
    ensures MatchAt(s) == Some(Match(n, d, |n| + |d| + 5))
  {
    ColonBodyIsMatched(n, d, rest);
    BracedIsMatched(s, n + (":-" + d + "}" + rest), Match(n, d, |n| + |d| + 3));
  }

  lemma ShortIsMatched(n: string, rest: string)
    requires IsName(n) && (rest == "" || !NameChar(rest[0]))
    ensures MatchAt("$" + n + rest) == Some(Match(n, "", |n| + 1))
  {
    var s := "$" + n + rest;
    assert s[1..] == n + rest;
    NameRunIs(n, rest);
    assert s[1..][..|n|] == n;
  }

  lemma PieceIsEvaluated(p: Piece, rest: string, env: Env)
    requires PieceOk(p) && (p.Short? ==> rest == "" || !NameChar(rest[0]))
    ensures Subst(Print(p) + rest, env) == Eval(p, env) + Subst(rest, env)
  {
    var s := Print(p) + rest;
    assert s[|Print(p)|..] == rest;
    match p
    case Literal(t) => LiteralIsKept(t, rest, env);
    case Var(n) => VarIsMatched(n, rest);
    case VarOr(n, d) => Regroup(n, "-", d, rest); PlainDefaultIsMatched(s, n, d, rest);
    case VarOrEmpty(n, d) => Regroup(n, ":-", d, rest); ColonDefaultIsMatched(s, n, d, rest);
    case Short(n) => ShortIsMatched(n, rest);
  }

  lemma TemplateTail(ps: seq<Piece>)
    requires ps != [] && TemplateOk(ps)
    ensures TemplateOk(ps[1..])
  {
  }

  // Substituting in the printed form of a template evaluates it, whatever text follows.
  lemma {:induction false} SubstEvaluatesThen(ps: seq<Piece>, rest: string, env: Env)
    requires TemplateOk(ps) && (rest == "" || !NameChar(rest[0]))
    ensures Subst(PrintAll(ps) + rest, env) == EvalAll(ps, env) + Subst(rest, env)
  {
    if ps == [] {
      assert PrintAll(ps) + rest == rest;
      assert EvalAll(ps, env) + Subst(rest, env) == Subst(rest, env);
    } else {
      TemplateTail(ps);
      SubstEvaluatesThen(ps[1..], rest, env);
      var tail := PrintAll(ps[1..]);
      Concat3(Print(ps[0]), tail, rest);
      PieceIsEvaluated(ps[0], tail + rest, env);
      Concat3(Eval(ps[0], env), EvalAll(ps[1..], env), Subst(rest, env));
    }
  }

  lemma SubstEvaluates(ps: seq<Piece>, env: Env)
    requires TemplateOk(ps)
    ensures Subst(PrintAll(ps), env) == EvalAll(ps, env)
  {
    SubstEvaluatesThen(ps, "", env);
    assert PrintAll(ps) + "" == PrintAll(ps);
    assert EvalAll(ps, env) + "" == EvalAll(ps, env);
  }

  // ---------- every text is a template ----------

  // A stray dollar sign stands for itself.
  datatype Unit = Char(c: char) | Ref(m: Match)

  function Units(s: string): seq<Unit>
    decreases |s|
  {
    if s == "" then []
    else match MatchAt(s)
      case Some(m) => [Ref(m)] + Units(s[m.length..])
      case None => [Char(s[0])] + Units(s[1..])
  }

  // Without a dollar sign nothing changes; what can change depends on the variables referred to.
  lemma NoDollarNoChange(s: string, env: Env)
    requires '$' !in s
    ensures Subst(s, env) == s
  {
    LiteralIsKept(s, "", env);
    assert s + "" == s;
  }

  lemma {:induction false} OnlyNamedVariablesMatter(s: string, env1: Env, env2: Env)
    requires forall u :: u in Units(s) && u.Ref? ==> Lookup(env1, u.m.name, u.m.default) == Lookup(env2, u.m.name, u.m.default)
    ensures Subst(s, env1) == Subst(s, env2)
    decreases |s|
  {
    if s != "" {
      match MatchAt(s)
      case Some(m) =>
        assert Ref(m) in Units(s);
        OnlyNamedVariablesMatter(s[m.length..], env1, env2);
      case None =>
        OnlyNamedVariablesMatter(s[1..], env1, env2);
    }
  }
}
