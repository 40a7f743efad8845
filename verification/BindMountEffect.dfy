/**
 What the commands for bind-mount sources do to a file system, run one after the other as a shell
 does: directories are made open to everybody, and files are there as files, but a directory that
 holds something is never touched.
 */
module BindMountEffect {
  import opened Wrappers
  import opened CommandLines
  import opened BindMountCommand
  import PyText

  // ---------- a file system ----------

  // `open` is the mode 777.
  datatype Node = Dir(open: bool) | File(open: bool)

  // By path. The root, which has the empty path, and the working directory "." are always there.
  type Fs = map<string, Node>

  predicate DirAt(fs: Fs, path: string) {
    path == "" || path == "." || (path in fs && fs[path].Dir?)
  }

  predicate Above(dir: string, path: string) {
    dir + "/" <= path
  }

  predicate Holds(fs: Fs, dir: string) {
    exists p :: p in fs && Above(dir, p)
  }

  // The directories on the way to `path`, and itself, made where they are missing; a file on the way
  // makes it fail.
  function Made(fs: Fs, path: string): Option<Fs>
    decreases |path|
  {
    if path == "" || path == "." then Some(fs)
    else
      var up := if LastSlash(path) >= 0 then Made(fs, path[..LastSlash(path)]) else Some(fs);
      match up
      case None => None
      case Some(mid) => if path !in mid then Some(mid[path := Dir(false)]) else if mid[path].Dir? then Some(mid) else None
  }

  // ---------- simple commands ----------

  datatype Effect = Effect(fs: Fs, ok: bool)

  function MakeEach(fs: Fs, paths: seq<string>): Effect
    decreases |paths|
  {
    if paths == [] then Effect(fs, true)
    else
      var made := Made(fs, paths[0]);
      var rest := MakeEach(if made.Some? then made.value else fs, paths[1..]);
      Effect(rest.fs, made.Some? && paths[0] != "" && rest.ok)
  }

  function Opened(node: Node): Node {
    node.(open := true)
  }

  // Opens what is named, and with `below` all that is under it.
  function OpenAll(fs: Fs, paths: seq<string>, below: bool): Fs {
    map p | p in fs :: if p in paths || (below && exists d :: d in paths && Above(d, p)) then Opened(fs[p]) else fs[p]
  }

  function Do(fs: Fs, words: seq<string>): Effect {
    if words == [] then Effect(fs, true)
    else if words[0] == "true" then Effect(fs, true)
    else if words[0] == "mkdir" && |words| >= 2 && words[1] == "-p" then MakeEach(fs, words[2..])
    else if words[0] == "chmod" && |words| >= 3 && words[1] == "-R" && words[2] == "777" then
      Effect(OpenAll(fs, words[3..], true), forall p :: p in words[3..] ==> p in fs)
    else if words[0] == "chmod" && |words| >= 2 && words[1] == "777" then
      Effect(OpenAll(fs, words[2..], false), forall p :: p in words[2..] ==> p in fs)
    else if words[0] == "rmdir" && |words| == 2 then
      if words[1] in fs && fs[words[1]].Dir? && !Holds(fs, words[1]) then Effect(fs - {words[1]}, true) else Effect(fs, false)
    else if words[0] == "touch" && |words| == 2 then
      if words[1] in fs then Effect(fs, true)
      else if DirAt(fs, Parent(words[1])) then Effect(fs[words[1] := File(false)], true)
      else Effect(fs, false)
    else if words[0] == "[" && |words| == 4 && words[3] == "]" then
      if words[1] == "-d" then Effect(fs, DirAt(fs, words[2]))
      else if words[1] == "-e" then Effect(fs, DirAt(fs, words[2]) || words[2] in fs)
      else Effect(fs, false)
    else Effect(fs, false)
  }

  // ---------- scripts ----------

  // The words of a command; redirections concern its output only.
  function WordsOf(args: seq<Arg>): seq<string> {
    if args == [] then []
    else (match args[0] case Bare(w) => [w] case Quoted(t) => [t] case Redirect(_, _) => []) + WordsOf(args[1..])
  }

  // `skipping` is the rest of an `if` whose condition failed; `next` whether the next command runs.
  datatype Shell = Shell(fs: Fs, ok: bool, skipping: bool, next: bool)

  function Enter(sh: Shell, words: seq<string>): Shell {
    if words != [] && words[0] == "if" then
      var r := Do(sh.fs, words[1..]);
      Shell(r.fs, r.ok, !r.ok, true)
    else if words != [] && words[0] == "then" then
      var r := Do(sh.fs, words[1..]);
      Shell(r.fs, r.ok, false, true)
    else if words == ["fi"] then sh
    else
      var r := Do(sh.fs, words);
      Shell(r.fs, r.ok, false, true)
  }

  function Follow(sh: Shell, link: Link): Shell {
    sh.(next := match link case Sequence => true case Last => true case AndThen => sh.ok case OrElse => !sh.ok)
  }

  function StepCommand(sh: Shell, c: Command): Shell {
    var words := WordsOf(c.args);
    if sh.skipping then
      if words == ["fi"] then Follow(sh.(skipping := false, ok := true), c.link) else sh
    else if !sh.next then Follow(sh, c.link)
    else
      var after := Enter(sh, words);
      if after.skipping then after else Follow(after, c.link)
  }

  function Exec(sh: Shell, script: seq<Command>): Shell
    decreases |script|
  {
    if script == [] then sh else Exec(StepCommand(sh, script[0]), script[1..])
  }

  function RunScript(fs: Fs, script: seq<Command>): Effect {
    var sh := Exec(Shell(fs, true, false, true), script);
    Effect(sh.fs, sh.ok)
  }

  lemma {:induction false} ExecConcat(sh: Shell, a: seq<Command>, b: seq<Command>)
    ensures Exec(sh, a + b) == Exec(Exec(sh, a), b)
    decreases |a|
  {
    if a == [] {
      assert a + b == b;
    } else {
      assert (a + b)[1..] == a[1..] + b;
      ExecConcat(StepCommand(sh, a[0]), a[1..], b);
    }
  }

  lemma ExecOne(sh: Shell, c: Command)
    ensures Exec(sh, [c]) == StepCommand(sh, c)
  {
    assert [c][1..] == [];
    assert Exec(StepCommand(sh, c), []) == StepCommand(sh, c);
  }

  // ---------- making directories ----------

  // The directories on the way to a path, and the path.
  function Way(path: string): set<string>
    decreases |path|
  {
    if path == "" || path == "." then {}
    else {path} + if LastSlash(path) >= 0 then Way(path[..LastSlash(path)]) else {}
  }

  predicate Clear(fs: Fs, path: string) {
    forall q :: q in Way(path) && q in fs ==> fs[q].Dir?
  }

  function WithDirs(fs: Fs, paths: set<string>): Fs {
    map q | q in fs.Keys + paths :: if q in fs then fs[q] else Dir(false)
  }

  lemma {:induction false} MadeIs(fs: Fs, path: string)
    ensures Made(fs, path) == if Clear(fs, path) then Some(WithDirs(fs, Way(path))) else None
    decreases |path|
  {
    if path == "" || path == "." {
      assert WithDirs(fs, {}) == fs;
    } else if LastSlash(path) >= 0 {
      var up := path[..LastSlash(path)];
      MadeIs(fs, up);
      assert path !in Way(up) by {
        WayIsShorter(up);
      }
      if Clear(fs, path) {
        assert Clear(fs, up);
        assert WithDirs(fs, Way(path)) == if path in fs then WithDirs(fs, Way(up)) else WithDirs(fs, Way(up))[path := Dir(false)];
      }
    } else {
      assert Way(path) == {path};
      assert WithDirs(fs, {path}) == if path in fs then fs else fs[path := Dir(false)];
    }
  }

  lemma {:induction false} WayIsShorter(path: string)
    ensures forall q :: q in Way(path) ==> |q| <= |path|
    decreases |path|
  {
    if path != "" && path != "." && LastSlash(path) >= 0 {
      WayIsShorter(path[..LastSlash(path)]);
    }
  }

  lemma ClearStays(fs: Fs, dirs: set<string>, path: string)
    requires Clear(fs, path)
    ensures Clear(WithDirs(fs, dirs), path)
  {
  }

  lemma WithDirsTwice(fs: Fs, a: set<string>, b: set<string>)
    ensures WithDirs(WithDirs(fs, a), b) == WithDirs(fs, a + b)
  {
  }

  function Ways(paths: seq<string>): set<string> {
    set p, q | p in paths && q in Way(p) :: q
  }

  // With nothing in the way all the directories are made, and nothing else changes.
  lemma {:induction false} MakeEachIs(fs: Fs, paths: seq<string>)
    requires forall p :: p in paths ==> Clear(fs, p) && p != ""
    ensures MakeEach(fs, paths) == Effect(WithDirs(fs, Ways(paths)), true)
    decreases |paths|
  {
    if paths == [] {
      assert WithDirs(fs, Ways(paths)) == fs;
    } else {
      MadeIs(fs, paths[0]);
      var mid := WithDirs(fs, Way(paths[0]));
      assert paths == [paths[0]] + paths[1..];
      forall p | p in paths[1..] ensures Clear(mid, p) && p != "" {
        assert p in paths;
        ClearStays(fs, Way(paths[0]), p);
      }
      MakeEachIs(mid, paths[1..]);
      assert Ways(paths) == Way(paths[0]) + Ways(paths[1..]);
      WithDirsTwice(fs, Way(paths[0]), Ways(paths[1..]));
    }
  }

  // ---------- the script for directories ----------

  // The directories exist and are open to everybody, with all that is in them.
  predicate OpenDirs(before: Fs, after: Fs, dirs: seq<string>) {
    && (forall d :: d in dirs ==> d in after && after[d] == Dir(true))
    && (forall p :: p in before ==> p in after)
    && (forall p :: p in before && !(p in dirs || exists d :: d in dirs && Above(d, p)) ==> after[p] == before[p])
    && (forall p :: p in before && (p in dirs || exists d :: d in dirs && Above(d, p)) ==> after[p] == before[p].(open := true))
    && (forall p :: p in after && p !in before ==> p in Ways(dirs) && after[p].Dir?)
  }

  lemma OpenAllIs(fs: Fs, dirs: seq<string>)
    requires forall d :: d in dirs ==> Clear(fs, d) && d != "" && d != "."
    ensures OpenDirs(fs, OpenAll(WithDirs(fs, Ways(dirs)), dirs, true), dirs)
    ensures forall d :: d in dirs ==> d in WithDirs(fs, Ways(dirs))
  {
    var mid := WithDirs(fs, Ways(dirs));
    forall d | d in dirs ensures d in mid && mid[d].Dir? {
      assert d in Way(d) && d in Ways(dirs);
    }
  }

  lemma {:induction false} WordsOfQuoted(ws: seq<string>)
    ensures WordsOf(QuotedArgs(ws)) == ws
  {
    if ws != [] {
      WordsOfQuoted(ws[1..]);
      assert QuotedArgs(ws)[1..] == QuotedArgs(ws[1..]);
      assert ws == [ws[0]] + ws[1..];
    }
  }

  lemma WordsOfBare(word: string, rest: seq<Arg>)
    ensures WordsOf([Bare(word)] + rest) == [word] + WordsOf(rest)
  {
  }

  lemma MkdirWords(dirs: seq<string>)
    ensures WordsOf([Bare("mkdir"), Bare("-p")] + QuotedArgs(dirs)) == ["mkdir", "-p"] + dirs
  {
    TwoBare("mkdir", "-p", dirs);
  }

  lemma ChmodWords(dirs: seq<string>)
    ensures WordsOf([Bare("chmod"), Bare("-R"), Bare("777")] + QuotedArgs(dirs)) == ["chmod", "-R", "777"] + dirs
  {
    ThreeBare("chmod", "-R", "777", dirs);
  }

  lemma TwoBare(a: string, b: string, paths: seq<string>)
    ensures WordsOf([Bare(a), Bare(b)] + QuotedArgs(paths)) == [a, b] + paths
  {
    var args := QuotedArgs(paths);
    WordsOfQuoted(paths);
    assert [Bare(a), Bare(b)] + args == [Bare(a)] + ([Bare(b)] + args);
    WordsOfBare(b, args);
    WordsOfBare(a, [Bare(b)] + args);
  }

  lemma ThreeBare(a: string, b: string, c: string, paths: seq<string>)
    ensures WordsOf([Bare(a), Bare(b), Bare(c)] + QuotedArgs(paths)) == [a, b, c] + paths
  {
    var rest := [Bare(b), Bare(c)] + QuotedArgs(paths);
    TwoBare(b, c, paths);
    WordsOfBare(a, rest);
    assert [Bare(a), Bare(b), Bare(c)] + QuotedArgs(paths) == [Bare(a)] + rest;
    assert [a] + ([b, c] + paths) == [a, b, c] + paths;
  }

  lemma DoMkdir(fs: Fs, paths: seq<string>)
    ensures Do(fs, ["mkdir", "-p"] + paths) == MakeEach(fs, paths)
  {
    assert (["mkdir", "-p"] + paths)[2..] == paths;
  }

  lemma DoChmodBelow(fs: Fs, paths: seq<string>)
    ensures Do(fs, ["chmod", "-R", "777"] + paths) == Effect(OpenAll(fs, paths, true), forall p :: p in paths ==> p in fs)
  {
    assert (["chmod", "-R", "777"] + paths)[3..] == paths;
  }

  predicate SimpleWord(word: string) {
    word != "if" && word != "then" && word != "fi"
  }

  lemma EnterSimple(sh: Shell, words: seq<string>)
    requires words != [] && SimpleWord(words[0])
    ensures Enter(sh, words) == Shell(Do(sh.fs, words).fs, Do(sh.fs, words).ok, false, true)
  {
  }

  lemma CommandNames()
    ensures SimpleWord("mkdir") && SimpleWord("chmod") && SimpleWord("[") && SimpleWord("touch") && SimpleWord("true")
  {
  }

  // The script runs through without failing, from one file system to the other.
  predicate Runs(before: Fs, script: seq<Command>, after: Fs) {
    Exec(Shell(before, true, false, true), script) == Shell(after, true, false, true)
  }

  lemma DirScriptRuns(fs: Fs, dirs: seq<string>)
    requires forall d :: d in dirs ==> Clear(fs, d) && d != "" && d != "."
    ensures Runs(fs, DirScript(dirs), OpenAll(WithDirs(fs, Ways(dirs)), dirs, true))
  {
    var first, second := DirScript(dirs)[0], DirScript(dirs)[1];
    var mid := WithDirs(fs, Ways(dirs));
    MkdirWords(dirs);
    ChmodWords(dirs);
    DoMkdir(fs, dirs);
    DoChmodBelow(mid, dirs);
    MakeEachIs(fs, dirs);
    OpenAllIs(fs, dirs);
    CommandNames();
    EnterSimple(Shell(fs, true, false, true), ["mkdir", "-p"] + dirs);
    EnterSimple(Shell(mid, true, false, true), ["chmod", "-R", "777"] + dirs);
    assert DirScript(dirs) == [first] + [second];
    ExecConcat(Shell(fs, true, false, true), [first], [second]);
    ExecOne(Shell(fs, true, false, true), first);
    assert StepCommand(Shell(fs, true, false, true), first) == Shell(mid, true, false, true);
    ExecOne(Shell(mid, true, false, true), second);
  }

  // Where no file is in the way the script makes the directories and opens them.
  lemma DirScriptOpens(fs: Fs, dirs: seq<string>)
    requires forall d :: d in dirs ==> Clear(fs, d) && d != "" && d != "."
    ensures var r := RunScript(fs, DirScript(dirs)); r.ok && OpenDirs(fs, r.fs, dirs)
  {
    DirScriptRuns(fs, dirs);
    OpenAllIs(fs, dirs);
  }

  // ---------- the script for one file ----------

  lemma OneQuoted(word: string, option: string, path: string)
    ensures WordsOf([Bare(word), Quoted(path)]) == [word, path]
    ensures WordsOf([Bare(word), Bare(option), Quoted(path)]) == [word, option, path]
  {
    var args := [Bare(word), Bare(option), Quoted(path)];
    var none: seq<Arg> := [];
    assert args[1..] == [Bare(option), Quoted(path)] && args[1..][1..] == [Quoted(path)] && args[1..][1..][1..] == none;
    assert [Bare(word), Quoted(path)][1..] == [Quoted(path)] && [Quoted(path)][1..] == none;
    assert WordsOf(none) == [] && WordsOf([Quoted(path)]) == [path];
  }

  lemma TestWordsAre(option: string, path: string)
    ensures WordsOf([Bare("["), Bare(option), Quoted(path), Bare("]")]) == ["[", option, path, "]"]
    ensures WordsOf([Bare("if"), Bare("["), Bare(option), Quoted(path), Bare("]")]) == ["if", "[", option, path, "]"]
  {
    var none: seq<Arg> := [];
    var test := [Bare("["), Bare(option), Quoted(path), Bare("]")];
    assert test == [Bare("[")] + ([Bare(option)] + ([Quoted(path)] + ([Bare("]")] + none)));
    assert WordsOf(none) == [];
    WordsOfBare("]", none);
    assert WordsOf([Quoted(path)] + ([Bare("]")] + none)) == [path] + ["]"];
    WordsOfBare(option, [Quoted(path)] + ([Bare("]")] + none));
    WordsOfBare("[", [Bare(option)] + ([Quoted(path)] + ([Bare("]")] + none)));
    WordsOfBare("if", test);
    assert [Bare("if"), Bare("["), Bare(option), Quoted(path), Bare("]")] == [Bare("if")] + test;
  }

  lemma RemovalWords(path: string)
    ensures WordsOf([Bare("then"), Bare("rmdir"), Quoted(path), Redirect("2", "/dev/null")]) == ["then", "rmdir", path]
    ensures WordsOf([Bare("true")]) == ["true"] && WordsOf([Bare("fi")]) == ["fi"]
  {
    var none: seq<Arg> := [];
    var redirect := [Redirect("2", "/dev/null")];
    assert WordsOf(none) == [] && redirect[1..] == none && WordsOf(redirect) == [];
    assert WordsOf([Quoted(path)] + redirect) == [path];
    WordsOfBare("rmdir", [Quoted(path)] + redirect);
    WordsOfBare("then", [Bare("rmdir")] + ([Quoted(path)] + redirect));
    assert [Bare("then"), Bare("rmdir"), Quoted(path), Redirect("2", "/dev/null")] ==
           [Bare("then")] + ([Bare("rmdir")] + ([Quoted(path)] + redirect));
    WordsOfBare("true", none);
    WordsOfBare("fi", none);
    assert [Bare("true")] == [Bare("true")] + none && [Bare("fi")] == [Bare("fi")] + none;
  }

  lemma DoTests(fs: Fs, path: string)
    ensures Do(fs, ["[", "-d", path, "]"]) == Effect(fs, DirAt(fs, path))
    ensures Do(fs, ["[", "-e", path, "]"]) == Effect(fs, DirAt(fs, path) || path in fs)
  {
  }

  predicate EmptyDir(fs: Fs, path: string) {
    path in fs && fs[path].Dir? && !Holds(fs, path)
  }

  lemma DoRest(fs: Fs, path: string)
    ensures Do(fs, ["rmdir", path]) == if EmptyDir(fs, path) then Effect(fs - {path}, true) else Effect(fs, false)
    ensures Do(fs, ["true"]) == Effect(fs, true)
    ensures Do(fs, ["touch", path]) ==
            if path in fs then Effect(fs, true)
            else if DirAt(fs, Parent(path)) then Effect(fs[path := File(false)], true) else Effect(fs, false)
  {
  }

  lemma DoChmod(fs: Fs, path: string)
    ensures Do(fs, ["chmod", "777", path]) == Effect(if path in fs then fs[path := fs[path].(open := true)] else fs, path in fs)
  {
    assert ["chmod", "777", path][2..] == [path];
    assert OpenAll(fs, [path], false) == if path in fs then fs[path := fs[path].(open := true)] else fs;
  }

  // A simple command that is run, with its link.
  lemma StepSimple(sh: Shell, c: Command, words: seq<string>)
    requires !sh.skipping && sh.next && WordsOf(c.args) == words && words != [] && SimpleWord(words[0])
    ensures StepCommand(sh, c) == Follow(Shell(Do(sh.fs, words).fs, Do(sh.fs, words).ok, false, true), c.link)
  {
    EnterSimple(sh, words);
  }

  lemma StepIf(sh: Shell, path: string)
    requires !sh.skipping && sh.next
    ensures StepCommand(sh, Command([Bare("if"), Bare("["), Bare("-d"), Quoted(path), Bare("]")], Sequence)) ==
            Shell(sh.fs, DirAt(sh.fs, path), !DirAt(sh.fs, path), true)
  {
    var words := ["if", "[", "-d", path, "]"];
    TestWordsAre("-d", path);
    assert words[1..] == ["[", "-d", path, "]"];
    DoTests(sh.fs, path);
  }

  lemma StepThen(sh: Shell, path: string)
    requires sh.next
    ensures StepCommand(sh, Command([Bare("then"), Bare("rmdir"), Quoted(path), Redirect("2", "/dev/null")], OrElse)) ==
            if sh.skipping then sh
            else if EmptyDir(sh.fs, path) then Shell(sh.fs - {path}, true, false, false) else Shell(sh.fs, false, false, true)
  {
    var words := ["then", "rmdir", path];
    RemovalWords(path);
    assert words[1..] == ["rmdir", path];
    DoRest(sh.fs, path);
  }

  lemma StepTrue(sh: Shell)
    ensures StepCommand(sh, Command([Bare("true")], Sequence)) ==
            if sh.skipping then sh else Shell(sh.fs, if sh.next then true else sh.ok, false, true)
  {
    RemovalWords("");
    CommandNames();
    DoRest(sh.fs, "");
    if !sh.skipping && sh.next {
      StepSimple(sh, Command([Bare("true")], Sequence), ["true"]);
    }
  }

  lemma StepFi(sh: Shell)
    requires sh.next
    ensures StepCommand(sh, Command([Bare("fi")], Sequence)) == Shell(sh.fs, if sh.skipping then true else sh.ok, false, true)
  {
    RemovalWords("");
  }

  function FileTail(f: string): seq<Command> {
    [Command([Bare("["), Bare("-e"), Quoted(f), Bare("]")], OrElse),
     Command([Bare("touch"), Quoted(f)], Sequence),
     Command([Bare("["), Bare("-d"), Quoted(f), Bare("]")], OrElse),
     Command([Bare("chmod"), Bare("777"), Quoted(f)], Last)]
  }

  function FileIf(f: string): seq<Command> {
    [Command([Bare("if"), Bare("["), Bare("-d"), Quoted(f), Bare("]")], Sequence),
     Command([Bare("then"), Bare("rmdir"), Quoted(f), Redirect("2", "/dev/null")], OrElse),
     Command([Bare("true")], Sequence),
     Command([Bare("fi")], Sequence)]
  }

  lemma ExecFour(sh: Shell, a: Command, b: Command, c: Command, d: Command)
    ensures Exec(sh, [a, b, c, d]) == StepCommand(StepCommand(StepCommand(StepCommand(sh, a), b), c), d)
  {
    assert [a, b, c, d] == [a] + ([b] + ([c] + [d]));
    ExecConcat(sh, [a], [b] + ([c] + [d]));
    ExecConcat(StepCommand(sh, a), [b], [c] + [d]);
    ExecConcat(StepCommand(StepCommand(sh, a), b), [c], [d]);
    ExecOne(sh, a);
    ExecOne(StepCommand(sh, a), b);
    ExecOne(StepCommand(StepCommand(sh, a), b), c);
    ExecOne(StepCommand(StepCommand(StepCommand(sh, a), b), c), d);
  }

  // An empty directory in the file's place is removed.
  lemma FileIfRemoves(fs: Fs, ok: bool, f: string)
    requires f != "" && f != "."
    ensures var sh := Exec(Shell(fs, ok, false, true), FileIf(f));
            sh == Shell(if EmptyDir(fs, f) then fs - {f} else fs, sh.ok, false, true)
  {
    var s0 := Shell(fs, ok, false, true);
    var c := FileIf(f);
    ExecFour(s0, c[0], c[1], c[2], c[3]);
    StepIf(s0, f);
    var s1 := StepCommand(s0, c[0]);
    StepThen(s1, f);
    var s2 := StepCommand(s1, c[1]);
    StepTrue(s2);
    var s3 := StepCommand(s2, c[2]);
    StepFi(s3);
  }

  // Then the file is made where there is nothing, and opened if it is no directory.
  function Touched(fs: Fs, f: string): Fs {
    if f in fs then (if fs[f].Dir? then fs else fs[f := File(true)])
    else fs[f := File(true)]
  }

  lemma TouchPart(fs: Fs, ok: bool, f: string)
    requires f != "" && f != "." && (f in fs || DirAt(fs, Parent(f)))
    ensures StepCommand(StepCommand(Shell(fs, ok, false, true), FileTail(f)[0]), FileTail(f)[1]) ==
            Shell(if f in fs then fs else fs[f := File(false)], true, false, true)
  {
    var s0 := Shell(fs, ok, false, true);
    CommandNames();
    TestWordsAre("-e", f);
    DoTests(fs, f);
    StepSimple(s0, FileTail(f)[0], ["[", "-e", f, "]"]);
    var s1 := StepCommand(s0, FileTail(f)[0]);
    OneQuoted("touch", "", f);
    DoRest(fs, f);
    if s1.next {
      StepSimple(s1, FileTail(f)[1], ["touch", f]);
    }
  }

  lemma ChmodPart(fs: Fs, f: string)
    requires f != "" && f != "." && f in fs
    ensures var sh := StepCommand(StepCommand(Shell(fs, true, false, true), FileTail(f)[2]), FileTail(f)[3]);
            sh == Shell(if fs[f].Dir? then fs else fs[f := File(true)], true, false, true)
  {
    var s2 := Shell(fs, true, false, true);
    CommandNames();
    TestWordsAre("-d", f);
    DoTests(fs, f);
    StepSimple(s2, FileTail(f)[2], ["[", "-d", f, "]"]);
    var s3 := StepCommand(s2, FileTail(f)[2]);
    OneQuoted("chmod", "777", f);
    DoChmod(fs, f);
    if s3.next {
      StepSimple(s3, FileTail(f)[3], ["chmod", "777", f]);
    }
  }

  lemma FileTailTouches(fs: Fs, ok: bool, f: string)
    requires f != "" && f != "." && (f in fs || DirAt(fs, Parent(f)))
    ensures Exec(Shell(fs, ok, false, true), FileTail(f)) == Shell(Touched(fs, f), true, false, true)
  {
    var c := FileTail(f);
    ExecFour(Shell(fs, ok, false, true), c[0], c[1], c[2], c[3]);
    TouchPart(fs, ok, f);
    ChmodPart(if f in fs then fs else fs[f := File(false)], f);
  }

  // The file is there, open to everybody, unless a directory that holds something has its name: that
  // one stays as it is. Nothing else changes but that missing directories on the way are made.
  ghost predicate FileThere(before: Fs, after: Fs, f: string) {
    && f in after
    && after[f] == (if f in before && before[f].Dir? && Holds(before, f) then before[f] else File(true))
    && (forall p :: p in before && p != f ==> p in after && after[p] == before[p])
    && (forall p :: p in after && p !in before && p != f ==> p in Way(Parent(f)) && after[p] == Dir(false))
  }

  lemma NotOnOwnWay(f: string)
    requires f != "" && f != "."
    ensures f !in Way(Parent(f)) && forall q :: q in Way(Parent(f)) ==> !Above(f, q)
  {
    WayIsShorter(Parent(f));
  }

  lemma MkdirParent(fs: Fs, f: string)
    requires Clear(fs, Parent(f))
    ensures MakeEach(fs, [Parent(f)]).fs == WithDirs(fs, Way(Parent(f)))
    ensures DirAt(WithDirs(fs, Way(Parent(f))), Parent(f))
  {
    MadeIs(fs, Parent(f));
    assert [Parent(f)][1..] == [];
    assert MakeEach(WithDirs(fs, Way(Parent(f))), []) == Effect(WithDirs(fs, Way(Parent(f))), true);
  }

  // What is in place when the file is touched.
  function Prepared(fs: Fs, f: string): Fs {
    var mid := WithDirs(fs, Way(Parent(f)));
    if EmptyDir(mid, f) then mid - {f} else mid
  }

  lemma PreparedIs(fs: Fs, f: string)
    requires f != "" && f != "." && Clear(fs, Parent(f))
    ensures DirAt(Prepared(fs, f), Parent(f))
    ensures f in Prepared(fs, f) <==> f in fs && !EmptyDir(fs, f)
    ensures forall p :: p in fs && p != f ==> p in Prepared(fs, f) && Prepared(fs, f)[p] == fs[p]
    ensures forall p :: p in Prepared(fs, f) && p !in fs ==> p in Way(Parent(f)) && Prepared(fs, f)[p] == Dir(false)
    ensures f in Prepared(fs, f) ==> Prepared(fs, f)[f] == fs[f]
  {
    var mid := WithDirs(fs, Way(Parent(f)));
    NotOnOwnWay(f);
    MkdirParent(fs, f);
    ParentIsOther(f);
    assert Holds(mid, f) <==> Holds(fs, f) by {
      if p :| p in fs && Above(f, p) {
        assert p in mid;
      }
    }
  }

  lemma TouchedIsThere(fs: Fs, f: string)
    requires f != "" && f != "." && Clear(fs, Parent(f))
    ensures FileThere(fs, Touched(Prepared(fs, f), f), f) && DirAt(Prepared(fs, f), Parent(f))
  {
    PreparedIs(fs, f);
  }

  lemma ParentIsOther(f: string)
    requires f != "" && f != "."
    ensures Parent(f) != f
  {
  }

  lemma FileScriptParts(f: string)
    ensures FileScript(f) == [Command([Bare("mkdir"), Bare("-p"), Quoted(Parent(f))], Sequence)] + (FileIf(f) + FileTail(f))
  {
  }

  lemma FileScriptRuns(fs: Fs, f: string)
    requires f != "" && f != "." && Clear(fs, Parent(f))
    ensures Runs(fs, FileScript(f), Touched(Prepared(fs, f), f)) && FileThere(fs, Touched(Prepared(fs, f), f), f)
  {
    var s0 := Shell(fs, true, false, true);
    var c0 := Command([Bare("mkdir"), Bare("-p"), Quoted(Parent(f))], Sequence);
    FileScriptParts(f);
    ExecConcat(s0, [c0], FileIf(f) + FileTail(f));
    ExecOne(s0, c0);
    OneQuoted("mkdir", "-p", Parent(f));
    CommandNames();
    StepSimple(s0, c0, ["mkdir", "-p", Parent(f)]);
    assert ["mkdir", "-p", Parent(f)] == ["mkdir", "-p"] + [Parent(f)];
    DoMkdir(fs, [Parent(f)]);
    MkdirParent(fs, f);
    var s1 := StepCommand(s0, c0);
    assert s1 == Shell(WithDirs(fs, Way(Parent(f))), s1.ok, false, true);
    ExecConcat(s1, FileIf(f), FileTail(f));
    FileIfRemoves(s1.fs, s1.ok, f);
    TouchedIsThere(fs, f);
    var s2 := Exec(s1, FileIf(f));
    FileTailTouches(s2.fs, s2.ok, f);
  }

  // Where no file is in the way of the directory, the script leaves the file in place.
  lemma FileScriptMakesFile(fs: Fs, f: string)
    requires f != "" && f != "." && Clear(fs, Parent(f))
    ensures var r := RunScript(fs, FileScript(f)); r.ok && FileThere(fs, r.fs, f)
  {
    FileScriptRuns(fs, f);
  }

  // ---------- the whole command ----------

  // A script that runs through does so with "&&" behind it, too.
  lemma LinkedRuns(before: Fs, script: seq<Command>, after: Fs)
    requires script != [] && script[|script| - 1].link == Last && Runs(before, script, after)
    ensures Runs(before, Linked(script), after)
  {
    var front, last := script[..|script| - 1], script[|script| - 1];
    var sh := Shell(before, true, false, true);
    assert script == front + [last];
    ExecConcat(sh, front, [last]);
    ExecConcat(sh, front, [last.(link := AndThen)]);
    ExecOne(Exec(sh, front), last);
    ExecOne(Exec(sh, front), last.(link := AndThen));
  }

  ghost predicate RunInTurn(states: seq<Fs>, scripts: seq<seq<Command>>) {
    |states| == |scripts| + 1 && forall k :: 0 <= k < |scripts| ==> Runs(states[k], scripts[k], states[k + 1])
  }

  // Joined scripts do what they do in turn.
  lemma {:induction false} JoinedRuns(states: seq<Fs>, scripts: seq<seq<Command>>)
    requires AllWellFormed(scripts) && RunInTurn(states, scripts)
    ensures Runs(states[0], Joined(scripts), states[|scripts|])
  {
    var n := |scripts| - 1;
    if n > 0 {
      var front := scripts[..n];
      assert RunInTurn(states[..n + 1], front) by {
        forall k | 0 <= k < n ensures Runs(states[..n + 1][k], front[k], states[..n + 1][k + 1]) {
          assert Runs(states[k], scripts[k], states[k + 1]);
        }
      }
      JoinedRuns(states[..n + 1], front);
      JoinedWellFormed(front);
      LinkedRuns(states[0], Joined(front), states[n]);
      ExecConcat(Shell(states[0], true, false, true), Linked(Joined(front)), scripts[n]);
      assert Runs(states[n], scripts[n], states[n + 1]);
    } else {
      assert Runs(states[0], scripts[0], states[1]);
    }
  }

  // The file is open to everybody, unless a directory that holds something has its name.
  ghost predicate FileDone(fs: Fs, f: string) {
    f in fs && (fs[f] == File(true) || (fs[f].Dir? && Holds(fs, f)))
  }

  // No source is in the way of another, nor anything else in the way of any.
  ghost predicate Free(fs: Fs, files: seq<string>) {
    && (forall f :: f in files ==> f != "" && f != "." && Clear(fs, Parent(f)))
    && (forall f, g :: f in files && g in files ==> f !in Way(Parent(g)))
  }

  // Nothing is lost, only the files named change, and what is new besides them are directories.
  ghost predicate Kept(before: Fs, after: Fs, files: seq<string>) {
    && (forall p :: p in before ==> p in after && (p !in files ==> after[p] == before[p]))
    && (forall p :: p in after && p !in before && p !in files ==> after[p].Dir?)
    && (forall f :: f in files ==> FileDone(after, f))
  }

  lemma OneMoreFile(fs: Fs, mid: Fs, files: seq<string>, f: string)
    requires Free(fs, files + [f]) && Kept(fs, mid, files)
    ensures Clear(mid, Parent(f))
    ensures Kept(fs, Touched(Prepared(mid, f), f), files + [f])
  {
    var all := files + [f];
    assert f in all && forall g :: g in files ==> g in all;
    forall q | q in Way(Parent(f)) && q in mid ensures mid[q].Dir? {
      assert q !in files;
    }
    FileScriptRuns(mid, f);
    var after := Touched(Prepared(mid, f), f);
    forall g | g in all ensures FileDone(after, g) {
      if g in files && g != f {
        assert FileDone(mid, g);
        HoldsStays(mid, after, g);
      } else if f in mid && mid[f].Dir? && Holds(mid, f) {
        HoldsStays(mid, after, f);
      }
    }
  }

  lemma HoldsStays(before: Fs, after: Fs, dir: string)
    requires forall p :: p in before ==> p in after
    ensures Holds(before, dir) ==> Holds(after, dir)
  {
  }

  lemma OneMoreRuns(states: seq<Fs>, scripts: seq<seq<Command>>, script: seq<Command>, after: Fs)
    requires RunInTurn(states, scripts) && Runs(states[|scripts|], script, after)
    ensures RunInTurn(states + [after], scripts + [script])
  {
    var more, all := states + [after], scripts + [script];
    forall k | 0 <= k < |all| ensures Runs(more[k], all[k], more[k + 1]) {
      if k < |scripts| {
        assert Runs(states[k], scripts[k], states[k + 1]);
      }
    }
  }

  lemma {:induction false} FilesRun(fs: Fs, files: seq<string>) returns (states: seq<Fs>)
    requires Free(fs, files)
    ensures RunInTurn(states, FileScripts(files)) && states[0] == fs
    ensures Kept(fs, states[|files|], files)
  {
    states := [fs];
    if files != [] {
      var front, f := files[..|files| - 1], files[|files| - 1];
      assert files == front + [f] && forall g :: g in front ==> g in files;
      states := FilesRun(fs, front);
      var after := Touched(Prepared(states[|front|], f), f);
      OneMoreFile(fs, states[|front|], front, f);
      FileScriptRuns(states[|front|], f);
      OneMoreRuns(states, FileScripts(front), FileScript(f), after);
      states := states + [after];
    }
  }

  // ---------- the command ----------

  // The sources that become directories, and those that become files.
  predicate Unobstructed(fs: Fs, hosts: seq<string>) {
    && (forall h :: h in hosts ==> h != "" && h != "." && Clear(fs, if IsFileMount(h) then Parent(h) else h))
    && (forall f, g :: f in hosts && g in hosts && IsFileMount(f) && IsFileMount(g) ==> f !in Way(Parent(g)))
  }

  lemma {:induction false} FilterIs(hosts: seq<string>, files: bool)
    ensures forall h :: h in Filter(hosts, files) <==> h in hosts && IsFileMount(h) == files
  {
    if hosts != [] {
      FilterIs(hosts[..|hosts| - 1], files);
      assert hosts == hosts[..|hosts| - 1] + [hosts[|hosts| - 1]];
    }
  }

  // Every source is there afterwards, open to everybody.
  ghost predicate SourcesThere(fs: Fs, hosts: seq<string>) {
    forall h :: h in hosts ==> if IsFileMount(h) then FileDone(fs, h) else h in fs && fs[h] == Dir(true)
  }

  lemma DirsRun(fs: Fs, dirs: seq<string>) returns (states: seq<Fs>)
    requires forall d :: d in dirs ==> Clear(fs, d) && d != "" && d != "."
    ensures RunInTurn(states, DirScripts(dirs)) && states[0] == fs
    ensures OpenDirs(fs, states[|DirScripts(dirs)|], dirs)
  {
    states := [fs];
    if dirs != [] {
      DirScriptRuns(fs, dirs);
      OpenAllIs(fs, dirs);
      states := [fs, OpenAll(WithDirs(fs, Ways(dirs)), dirs, true)];
    }
  }

  lemma RunBoth(first: seq<Fs>, a: seq<seq<Command>>, second: seq<Fs>, b: seq<seq<Command>>)
    requires RunInTurn(first, a) && RunInTurn(second, b) && first[|a|] == second[0]
    ensures RunInTurn(first + second[1..], a + b) && (first + second[1..])[|a + b|] == second[|b|]
  {
    var states, scripts := first + second[1..], a + b;
    forall k | 0 <= k < |scripts| ensures Runs(states[k], scripts[k], states[k + 1]) {
      if k < |a| {
        assert Runs(first[k], a[k], first[k + 1]);
      } else {
        assert Runs(second[k - |a|], b[k - |a|], second[k - |a| + 1]);
      }
    }
  }

  lemma FilesAreFree(fs: Fs, mid: Fs, dirs: seq<string>, files: seq<string>)
    requires OpenDirs(fs, mid, dirs) && Free(fs, files)
    ensures Free(mid, files)
  {
    forall f | f in files ensures Clear(mid, Parent(f)) {
      forall q | q in Way(Parent(f)) && q in mid ensures mid[q].Dir? {
        assert q in fs ==> fs[q].Dir?;
      }
    }
  }

  // Where nothing obstructs them, the scripts run through as one command, directories first, and leave
  // every source in place; nothing that was there is lost.
  lemma BindScriptsPrepare(fs: Fs, hosts: seq<string>) returns (after: Fs)
    requires hosts != [] && Unobstructed(fs, hosts)
    ensures AllWellFormed(BindScripts(hosts)) && Runs(fs, Joined(BindScripts(hosts)), after)
    ensures SourcesThere(after, hosts) && forall p :: p in fs ==> p in after
  {
    var dirs, files := Filter(hosts, false), Filter(hosts, true);
    FilterIs(hosts, false);
    FilterIs(hosts, true);
    var first := DirsRun(fs, dirs);
    var mid := first[|DirScripts(dirs)|];
    FilesAreFree(fs, mid, dirs, files);
    var second := FilesRun(mid, files);
    RunBoth(first, DirScripts(dirs), second, FileScripts(files));
    BindScriptsWellFormed(hosts);
    JoinedRuns(first + second[1..], BindScripts(hosts));
    after := second[|files|];
    forall h | h in hosts && !IsFileMount(h) ensures h in after && after[h] == Dir(true) {
      assert h in dirs && h !in files;
    }
  }

  // ---------- which sources are files ----------

  lemma {:induction false} LastSlashIs(dir: string, name: string)
    requires '/' !in name
    ensures LastSlash(dir + "/" + name) == |dir| && LastSlash(name) == -1
  {
    var path := dir + "/" + name;
    if name != "" {
      var shorter := name[..|name| - 1];
      LastSlashIs(dir, shorter);
      assert path[..|path| - 1] == dir + "/" + shorter;
      assert path[|path| - 1] == name[|name| - 1] && name[|name| - 1] in name;
    } else {
      assert path[|path| - 1] == '/';
    }
  }

  // The part after the last slash decides: a name that starts with a dot is a file when it starts with
  // ".env" in any case, and any other name when it has a dot.
  lemma FileMountIs(dir: string, name: string)
    requires '/' !in name
    ensures IsFileMount(dir + "/" + name) <==>
            if name != "" && name[0] == '.' then |name| >= 4 && PyText.Lower(name[..4]) == ".env" else '.' in name
    ensures IsFileMount(name) <==> IsFileMount(dir + "/" + name)
  {
    var path := dir + "/" + name;
    LastSlashIs(dir, name);
    assert path[|dir| + 1..] == name;
    if |name| >= 4 {
      LowerOfFour(name[..4]);
    }
  }

  lemma LowerOfFour(s: string)
    requires |s| == 4
    ensures PyText.Lower(s) == [PyText.LowerChar(s[0]), PyText.LowerChar(s[1]), PyText.LowerChar(s[2]), PyText.LowerChar(s[3])]
  {
  }

  lemma EnvIsFile()
    ensures IsFileMount(".env")
  {
    assert LastSlash("") == -1 && LastSlash(".") == -1 && LastSlash(".e") == -1 && LastSlash(".en") == -1;
    assert ".env"[..3] == ".en" && ".en"[..2] == ".e" && ".e"[..1] == "." && "."[..0] == "";
    assert BaseName(".env") == ".env";
  }
}
