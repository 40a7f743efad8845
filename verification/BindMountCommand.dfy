/**
 The command that prepares bind-mount sources inside a container. Two shells read it, the node's and
 the container's, and every path reaches mkdir, chmod, rmdir and touch unchanged.
 */
module BindMountCommand {
  import opened Wrappers
  import opened CommandLines
  import opened Shell
  import Decimal
  import PyText

  // ---------- the scripts ----------

  // pct exec <vmid> -- /bin/bash -lc '<inner>'
  function PctArgs(vmid: nat, inner: string): seq<Arg> {
    [Bare("pct"), Bare("exec"), Bare(Decimal.Print(vmid)), Bare("--"), Bare("/bin/bash"), Bare("-lc"), Quoted(inner)]
  }

  function Pct(vmid: nat, inner: string): string {
    ArgsText(PctArgs(vmid, inner))
  }

  // mkdir -p <dirs> && chmod -R 777 <dirs>
  function DirScript(dirs: seq<string>): seq<Command> {
    [Command([Bare("mkdir"), Bare("-p")] + QuotedArgs(dirs), AndThen),
     Command([Bare("chmod"), Bare("-R"), Bare("777")] + QuotedArgs(dirs), Last)]
  }

  function LastSlash(path: string): (i: int)
    ensures -1 <= i < |path|
    ensures i >= 0 ==> path[i] == '/'
    ensures forall k :: i < k < |path| ==> path[k] != '/'
  {
    if path == "" then -1
    else if path[|path| - 1] == '/' then |path| - 1
    else LastSlash(path[..|path| - 1])
  }

  function BaseName(path: string): string {
    path[LastSlash(path) + 1..]
  }

  function Parent(path: string): string {
    if LastSlash(path) >= 0 then path[..LastSlash(path)] else "."
  }

  // A source is created as a file when its name has a dot, hidden names being directories
  // unless they are .env files.
  predicate IsFileMount(path: string) {
    var name := BaseName(path);
    if name != "" && name[0] == '.'
    then |name| >= 4 && PyText.LowerChar(name[1]) == 'e' && PyText.LowerChar(name[2]) == 'n' && PyText.LowerChar(name[3]) == 'v'
    else '.' in name
  }

  // mkdir -p <parent>; if [ -d <f> ]; then rmdir <f> 2>/dev/null || true; fi;
  // [ -e <f> ] || touch <f>; [ -d <f> ] || chmod 777 <f>
  function FileScript(f: string): seq<Command> {
    [Command([Bare("mkdir"), Bare("-p"), Quoted(Parent(f))], Sequence),
     Command([Bare("if"), Bare("["), Bare("-d"), Quoted(f), Bare("]")], Sequence),
     Command([Bare("then"), Bare("rmdir"), Quoted(f), Redirect("2", "/dev/null")], OrElse),
     Command([Bare("true")], Sequence),
     Command([Bare("fi")], Sequence),
     Command([Bare("["), Bare("-e"), Quoted(f), Bare("]")], OrElse),
     Command([Bare("touch"), Quoted(f)], Sequence),
     Command([Bare("["), Bare("-d"), Quoted(f), Bare("]")], OrElse),
     Command([Bare("chmod"), Bare("777"), Quoted(f)], Last)]
  }

  function Filter(hosts: seq<string>, files: bool): seq<string> {
    if hosts == [] then [] else
      var rest := Filter(hosts[..|hosts| - 1], files);
      if IsFileMount(hosts[|hosts| - 1]) == files then rest + [hosts[|hosts| - 1]] else rest
  }

  function FileScripts(files: seq<string>): (scripts: seq<seq<Command>>)
    ensures |scripts| == |files|
  {
    if files == [] then [] else FileScripts(files[..|files| - 1]) + [FileScript(files[|files| - 1])]
  }

  function DirScripts(dirs: seq<string>): seq<seq<Command>> {
    if dirs == [] then [] else [DirScript(dirs)]
  }

  function BindScripts(hosts: seq<string>): seq<seq<Command>> {
    DirScripts(Filter(hosts, false)) + FileScripts(Filter(hosts, true))
  }

  // ---------- joining them ----------

  function Chain(texts: seq<string>): string {
    if texts == [] then ""
    else if |texts| == 1 then texts[0]
    else Chain(texts[..|texts| - 1]) + " && " + texts[|texts| - 1]
  }

  function Linked(script: seq<Command>): seq<Command>
    requires script != []
  {
    script[..|script| - 1] + [script[|script| - 1].(link := AndThen)]
  }

  function Joined(scripts: seq<seq<Command>>): seq<Command>
    requires scripts != [] && forall i :: 0 <= i < |scripts| ==> scripts[i] != []
    ensures Joined(scripts) != []
  {
    if |scripts| == 1 then scripts[0]
    else Linked(Joined(scripts[..|scripts| - 1])) + scripts[|scripts| - 1]
  }

  function Meanings(scripts: seq<seq<Command>>): seq<Token> {
    if scripts == [] then []
    else if |scripts| == 1 then Meaning(scripts[0])
    else Meanings(scripts[..|scripts| - 1]) + [Operator("&&")] + Meaning(scripts[|scripts| - 1])
  }

  lemma {:induction false} TextConcat(a: seq<Command>, b: seq<Command>)
    ensures Text(a + b) == Text(a) + Text(b)
    decreases |a|
  {
    if a == [] {
      assert a + b == b;
    } else {
      assert (a + b)[1..] == a[1..] + b && (a + b)[0] == a[0];
      TextConcat(a[1..], b);
      Assoc(ArgsText(a[0].args) + LinkText(a[0].link), Text(a[1..]), Text(b));
    }
  }

  lemma {:induction false} MeaningConcat(a: seq<Command>, b: seq<Command>)
    ensures Meaning(a + b) == Meaning(a) + Meaning(b)
    decreases |a|
  {
    if a == [] {
      assert a + b == b;
    } else {
      assert (a + b)[1..] == a[1..] + b && (a + b)[0] == a[0];
      MeaningConcat(a[1..], b);
      Assoc(ArgsTokens(a[0].args) + LinkTokens(a[0].link), Meaning(a[1..]), Meaning(b));
    }
  }

  lemma Concat(a: seq<Command>, b: seq<Command>)
    ensures Text(a + b) == Text(a) + Text(b) && Meaning(a + b) == Meaning(a) + Meaning(b)
  {
    TextConcat(a, b);
    MeaningConcat(a, b);
  }

  lemma OneCommandText(c: Command)
    ensures Text([c]) == ArgsText(c.args) + LinkText(c.link) && Meaning([c]) == ArgsTokens(c.args) + LinkTokens(c.link)
  {
  }

  lemma LinkedText(script: seq<Command>)
    requires WellFormed(script)
    ensures Text(Linked(script)) == Text(script) + " && "
    ensures Meaning(Linked(script)) == Meaning(script) + [Operator("&&")]
  {
    var front, last := script[..|script| - 1], script[|script| - 1];
    assert script == front + [last];
    Concat(front, [last]);
    Concat(front, [last.(link := AndThen)]);
    OneCommandText(last);
    OneCommandText(last.(link := AndThen));
    assert ArgsText(last.args) + "" == ArgsText(last.args);
    Assoc(Text(front), ArgsText(last.args), " && ");
    assert ArgsTokens(last.args) + [] == ArgsTokens(last.args);
    Assoc(Meaning(front), ArgsTokens(last.args), [Operator("&&")]);
  }

  function Texts(scripts: seq<seq<Command>>): (texts: seq<string>)
    ensures |texts| == |scripts| && forall i :: 0 <= i < |scripts| ==> texts[i] == Text(scripts[i])
  {
    seq(|scripts|, i requires 0 <= i < |scripts| => Text(scripts[i]))
  }

  ghost predicate AllWellFormed(scripts: seq<seq<Command>>) {
    scripts != [] && forall i :: 0 <= i < |scripts| ==> scripts[i] != [] && WellFormed(scripts[i])
  }

  lemma LinkedWellFormed(a: seq<Command>, b: seq<Command>)
    requires WellFormed(a) && WellFormed(b)
    ensures WellFormed(Linked(a) + b)
  {
  }

  lemma {:induction false} JoinedWellFormed(scripts: seq<seq<Command>>)
    requires AllWellFormed(scripts)
    ensures WellFormed(Joined(scripts))
  {
    if |scripts| > 1 {
      JoinedWellFormed(scripts[..|scripts| - 1]);
      LinkedWellFormed(Joined(scripts[..|scripts| - 1]), scripts[|scripts| - 1]);
    }
  }

  lemma ChainTexts(scripts: seq<seq<Command>>)
    requires |scripts| > 1
    ensures Chain(Texts(scripts)) == Chain(Texts(scripts[..|scripts| - 1])) + " && " + Text(scripts[|scripts| - 1])
  {
    assert Texts(scripts)[..|scripts| - 1] == Texts(scripts[..|scripts| - 1]);
  }

  lemma {:induction false} JoinedText(scripts: seq<seq<Command>>)
    requires AllWellFormed(scripts)
    ensures Text(Joined(scripts)) == Chain(Texts(scripts))
  {
    if |scripts| > 1 {
      var front, last := scripts[..|scripts| - 1], scripts[|scripts| - 1];
      JoinedWellFormed(front);
      JoinedText(front);
      LinkedText(Joined(front));
      TextConcat(Linked(Joined(front)), last);
      ChainTexts(scripts);
    }
  }

  lemma {:induction false} JoinedMeaning(scripts: seq<seq<Command>>)
    requires AllWellFormed(scripts)
    ensures Meaning(Joined(scripts)) == Meanings(scripts)
  {
    if |scripts| > 1 {
      var front, last := scripts[..|scripts| - 1], scripts[|scripts| - 1];
      JoinedWellFormed(front);
      JoinedMeaning(front);
      LinkedText(Joined(front));
      MeaningConcat(Linked(Joined(front)), last);
    }
  }

  // ---------- the constant words ----------

  lemma PctWords()
    ensures IsBare("pct") && IsBare("exec") && IsBare("--") && IsBare("/bin/bash") && IsBare("-lc")
  {
  }

  lemma DirWords()
    ensures IsBare("mkdir") && IsBare("-p") && IsBare("chmod") && IsBare("-R") && IsBare("777")
  {
  }

  lemma TestWords()
    ensures IsBare("if") && IsBare("[") && IsBare("-d") && IsBare("]") && IsBare("-e") && IsBare("fi")
  {
  }

  lemma FileWords()
    ensures IsBare("then") && IsBare("rmdir") && IsBare("true") && IsBare("touch") && IsBare("/dev/null")
  {
  }

  lemma PctWellFormed(vmid: nat, inner: string)
    ensures ArgsWellFormed(PctArgs(vmid, inner))
  {
    PctWords();
    assert IsBare(Decimal.Print(vmid));
  }

  lemma DirScriptWellFormed(dirs: seq<string>)
    ensures WellFormed(DirScript(dirs))
  {
    DirWords();
  }

  lemma FileScriptWellFormed(f: string)
    ensures WellFormed(FileScript(f))
  {
    DirWords();
    TestWords();
    FileWords();
    assert ArgWellFormed(Redirect("2", "/dev/null"));
  }

  lemma {:induction false} FileScriptsWellFormed(files: seq<string>)
    ensures |FileScripts(files)| == |files| && forall i :: 0 <= i < |files| ==> WellFormed(FileScripts(files)[i])
  {
    if files != [] {
      FileScriptsWellFormed(files[..|files| - 1]);
      FileScriptWellFormed(files[|files| - 1]);
    }
  }

  // The node's shell hands the inner command to bash as one argument, verbatim.
  lemma PctDelivers(vmid: nat, inner: string)
    ensures Tokens(Pct(vmid, inner)) ==
            Some([Word("pct"), Word("exec"), Word(Decimal.Print(vmid)), Word("--"), Word("/bin/bash"), Word("-lc"), Word(inner)])
  {
    var c := Command(PctArgs(vmid, inner), Last);
    PctWellFormed(vmid, inner);
    TextMeans([c]);
    OneCommand(c);
    PctTokens(c.args);
  }

  lemma UnfoldTokens(args: seq<Arg>, i: nat)
    requires i < |args|
    ensures ArgsTokens(args[i..]) == ArgTokens(args[i]) + ArgsTokens(args[i + 1..])
  {
  }

  lemma PctTokens(args: seq<Arg>)
    requires |args| == 7 && args[6].Quoted? && forall i :: 0 <= i < 6 ==> args[i].Bare?
    ensures ArgsTokens(args) == [Word(args[0].word), Word(args[1].word), Word(args[2].word), Word(args[3].word),
                                 Word(args[4].word), Word(args[5].word), Word(args[6].text)]
  {
    UnfoldTokens(args, 6);
    UnfoldTokens(args, 5);
    UnfoldTokens(args, 4);
    UnfoldTokens(args, 3);
    UnfoldTokens(args, 2);
    UnfoldTokens(args, 1);
    UnfoldTokens(args, 0);
    assert args[0..] == args;
  }

  // ---------- the step as it runs ----------

  method PrepareBindMounts(vmid: nat, hosts: seq<string>) returns (command: Option<string>, ghost inner: string)
    ensures command.None? <==> hosts == []
    ensures command.Some? ==> command.value == Pct(vmid, inner) && Tokens(inner) == Some(Meanings(BindScripts(hosts)))
  {
    inner := "";
    if hosts == [] {
      return None, inner;
    }
    var text := InnerCommand(hosts);
    inner := text;
    command := Some(Pct(vmid, text));
  }

  method InnerCommand(hosts: seq<string>) returns (inner: string)
    requires hosts != []
    ensures Tokens(inner) == Some(Meanings(BindScripts(hosts)))
  {
    var dirs, files := Partition(hosts);
    var first := DirCommands(dirs);
    var second := FileCommands(files);
    inner := Chain(first + second);
    BindCommandIsRead(hosts);
  }

  method DirCommands(dirs: seq<string>) returns (cmds: seq<string>)
    ensures cmds == Texts(DirScripts(dirs))
  {
    cmds := [];
    if dirs != [] {
      cmds := [Text(DirScript(dirs))];
    }
  }

  method Partition(hosts: seq<string>) returns (dirs: seq<string>, files: seq<string>)
    ensures dirs == Filter(hosts, false) && files == Filter(hosts, true)
  {
    dirs, files := [], [];
    for i := 0 to |hosts|
      invariant dirs == Filter(hosts[..i], false) && files == Filter(hosts[..i], true)
    {
      assert hosts[..i + 1][..i] == hosts[..i];
      if IsFileMount(hosts[i]) {
        files := files + [hosts[i]];
      } else {
        dirs := dirs + [hosts[i]];
      }
    }
    assert hosts[..|hosts|] == hosts;
  }

  lemma FileTextsSnoc(files: seq<string>, f: string)
    ensures Texts(FileScripts(files + [f])) == Texts(FileScripts(files)) + Texts([FileScript(f)])
  {
  }

  method FileCommand(f: string) returns (cmd: string)
    ensures [cmd] == Texts([FileScript(f)])
  {
    cmd := Text(FileScript(f));
  }

  method FileCommands(files: seq<string>) returns (cmds: seq<string>)
    ensures cmds == Texts(FileScripts(files))
  {
    cmds := [];
    for i := 0 to |files|
      invariant cmds == Texts(FileScripts(files[..i]))
    {
      FileTextsSnoc(files[..i], files[i]);
      assert files[..i + 1] == files[..i] + [files[i]];
      var cmd := FileCommand(files[i]);
      cmds := cmds + [cmd];
    }
    assert files[..|files|] == files;
  }

  lemma {:induction false} FilterCovers(hosts: seq<string>)
    ensures Filter(hosts, false) == [] && Filter(hosts, true) == [] ==> hosts == []
  {
  }

  lemma BindCommandIsRead(hosts: seq<string>)
    requires hosts != []
    ensures Tokens(Chain(Texts(DirScripts(Filter(hosts, false))) + Texts(FileScripts(Filter(hosts, true))))) ==
            Some(Meanings(BindScripts(hosts)))
  {
    var scripts := BindScripts(hosts);
    BindScriptsWellFormed(hosts);
    TextsConcat(DirScripts(Filter(hosts, false)), FileScripts(Filter(hosts, true)));
    JoinedWellFormed(scripts);
    JoinedText(scripts);
    JoinedMeaning(scripts);
    TextMeans(Joined(scripts));
  }

  lemma TextsConcat(a: seq<seq<Command>>, b: seq<seq<Command>>)
    ensures Texts(a + b) == Texts(a) + Texts(b)
  {
  }

  lemma BindScriptsWellFormed(hosts: seq<string>)
    requires hosts != []
    ensures AllWellFormed(BindScripts(hosts))
  {
    FilterCovers(hosts);
    ScriptsWellFormed(Filter(hosts, false), Filter(hosts, true));
  }

  lemma ScriptsWellFormed(dirs: seq<string>, files: seq<string>)
    requires dirs != [] || files != []
    ensures AllWellFormed(DirScripts(dirs) + FileScripts(files))
  {
    FileScriptsWellFormed(files);
    if dirs == [] {
      assert DirScripts(dirs) + FileScripts(files) == FileScripts(files);
    } else {
      DirScriptWellFormed(dirs);
      FirstIsWellFormed(DirScript(dirs), FileScripts(files));
    }
  }

  lemma FirstIsWellFormed(first: seq<Command>, rest: seq<seq<Command>>)
    requires WellFormed(first) && forall i :: 0 <= i < |rest| ==> WellFormed(rest[i])
    ensures AllWellFormed([first] + rest)
  {
  }
}
