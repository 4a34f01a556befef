/** The remote archive command and what a POSIX shell reads in it. */
module ArchiveCommand {
  import opened Domain
  import opened Strings
  import opened Shell

  datatype Source = Source(remotePath: string, includes: seq<string>, excludes: seq<string>)

  // ----- the intended tokens -----

  function Excludes(sources: seq<Source>): seq<string> {
    if sources == [] then [] else Excludes(sources[..|sources| - 1]) + sources[|sources| - 1].excludes
  }

  function Paths(sources: seq<Source>): (paths: seq<string>)
    ensures |paths| == |sources|
  {
    seq(|sources|, i requires 0 <= i < |sources| => sources[i].remotePath)
  }

  function ExcludeWords(patterns: seq<string>): (ws: seq<string>)
    ensures |ws| == |patterns|
  {
    seq(|patterns|, i requires 0 <= i < |patterns| => "--exclude=" + patterns[i])
  }

  predicate HasInclude(sources: seq<Source>) {
    exists i :: 0 <= i < |sources| && sources[i].includes != []
  }

  const And := [Operator("&&")]
  const Semi := [Operator(";")]

  function MkdirTokens(dir: string): seq<Token> {
    Words(["mkdir", "-p", dir])
  }

  /** mkdir -p DIR && tar --exclude=PATTERN... -czf ARCHIVE -- SOURCE... */
  function PlainTokens(sources: seq<Source>, dir: string, archive: string): seq<Token> {
    MkdirTokens(dir) + And + Words(["tar"] + ExcludeWords(Excludes(sources)) + ["-czf", archive, "--"] + Paths(sources))
  }

  /** strings.TrimRight: the longest prefix that does not end in a slash. */
  function TrimSlashes(s: string): (r: string)
    ensures |r| <= |s| && r == s[..|r|]
    ensures r != "" ==> r[|r| - 1] != '/'
    ensures forall i :: |r| <= i < |s| ==> s[i] == '/'
  {
    if s != "" && s[|s| - 1] == '/' then TrimSlashes(s[..|s| - 1]) else s
  }

  function NameTokens(pattern: string): seq<Token> {
    Words(["-name", TrimSlashes(pattern)])
  }

  function NamesTokens(patterns: seq<string>): (ts: seq<seq<Token>>)
    ensures |ts| == |patterns|
  {
    seq(|patterns|, i requires 0 <= i < |patterns| => NameTokens(patterns[i]))
  }

  /** printf '%s\000' PATH, or find PATH -mindepth 1 ( -name N -o -name N ... ) -prune -print0. */
  function EntryTokens(s: Source): seq<Token> {
    if s.includes == [] then Words(["printf", "%s\\000", s.remotePath])
    else
      Words(["find", s.remotePath, "-mindepth", "1", "("])
      + Interleave(NamesTokens(s.includes), Words(["-o"]))
      + Words([")", "-prune", "-print0"])
  }

  function EntriesTokens(sources: seq<Source>): (ts: seq<seq<Token>>)
    ensures |ts| == |sources|
  {
    seq(|sources|, i requires 0 <= i < |sources| => EntryTokens(sources[i]))
  }

  /** mkdir -p DIR && { ENTRIES joined by && ; } > LIST && tar ... ; status=$? ; rm -f LIST ; exit $status */
  function IncludeTokens(sources: seq<Source>, dir: string, archive: string): seq<Token> {
    MkdirTokens(dir) + And + IncludeRest(sources, archive)
  }

  function IncludeRest(sources: seq<Source>, archive: string): seq<Token> {
    var list := archive + ".list";
    Words(["{"]) + Interleave(EntriesTokens(sources), And) + Semi
    + (Words(["}"]) + [Operator(">")] + Words([list])) + And
    + Words(["tar", "--null", "-T", list] + ExcludeWords(Excludes(sources)) + ["-czf", archive]) + Semi
    + ExitTokens(list)
  }

  function ExitTokens(list: string): seq<Token> {
    [Word("status=$?", true)] + Semi + Words(["rm", "-f", list]) + Semi + [Word("exit", false), Word("$status", true)]
  }

  function Intended(sources: seq<Source>, dir: string, archive: string): seq<Token> {
    if HasInclude(sources) then IncludeTokens(sources, dir, archive) else PlainTokens(sources, dir, archive)
  }

  predicate NulFree(s: string) {
    NUL !in s
  }

  ghost predicate CleanSource(s: Source) {
    && NulFree(s.remotePath)
    && (forall i :: 0 <= i < |s.includes| ==> NulFree(s.includes[i]))
    && (forall i :: 0 <= i < |s.excludes| ==> NulFree(s.excludes[i]))
  }

  ghost predicate Clean(sources: seq<Source>, dir: string, archive: string) {
    NulFree(dir) && CleanInputs(sources, archive)
  }

  ghost predicate CleanInputs(sources: seq<Source>, archive: string) {
    NulFree(archive) && forall i :: 0 <= i < |sources| ==> CleanSource(sources[i])
  }

  // ----- the code -----

  ghost predicate ExcludeArgs(args: seq<string>, patterns: seq<string>) {
    |args| == |patterns| && forall i :: 0 <= i < |args| ==> args[i] == "--exclude=" + ShellQuote(patterns[i])
  }

  ghost predicate SourceArgs(args: seq<string>, sources: seq<Source>) {
    |args| == |sources| && forall i :: 0 <= i < |args| ==> args[i] == ShellQuote(sources[i].remotePath)
  }

  /** For every list of sources and patterns, the shell reads exactly the intended words and operators. */
  method ArchiveCommand(sources: seq<Source>, dir: string, archive: string) returns (cmd: string)
    ensures Clean(sources, dir, archive) ==> Lex(cmd) == Some(Intended(sources, dir, archive))
  {
    hide Lex, ShellQuote, PlainTokens, IncludeTokens, CleanSource, NulFree;
    var excludeArgs: seq<string>, sourceArgs: seq<string>, hasInclude := [], [], false;
    for i := 0 to |sources|
      invariant ExcludeArgs(excludeArgs, Excludes(sources[..i]))
      invariant SourceArgs(sourceArgs, sources[..i])
      invariant hasInclude == HasInclude(sources[..i])
    {
      assert sources[..i + 1][..i] == sources[..i];
      var s := sources[i];
      for j := 0 to |s.excludes|
        invariant ExcludeArgs(excludeArgs, Excludes(sources[..i]) + s.excludes[..j])
      {
        excludeArgs := excludeArgs + ["--exclude=" + ShellQuote(s.excludes[j])];
      }
      assert s.excludes[..|s.excludes|] == s.excludes;
      sourceArgs := sourceArgs + [ShellQuote(s.remotePath)];
      if |s.includes| > 0 {
        hasInclude := true;
      }
    }
    assert sources[..|sources|] == sources;
    var mkdir := "mkdir" + " " + "-p" + " " + ShellQuote(dir);
    if hasInclude {
      var rest := IncludeArchiveCommand(sources, archive, excludeArgs);
      cmd := mkdir + " && " + rest;
      if Clean(sources, dir, archive) {
        IncludeCommandReads(sources, dir, archive, mkdir, rest);
      }
      return;
    }
    var parts := [mkdir, "&&", "tar"];
    parts := parts + excludeArgs;
    parts := parts + ["-czf", ShellQuote(archive), "--"];
    parts := parts + sourceArgs;
    cmd := Join(parts, " ");
    if Clean(sources, dir, archive) {
      PlainCommandReads(sources, dir, archive, mkdir, excludeArgs, sourceArgs, parts);
    }
  }

  /** The entries to archive are listed into a file that tar reads, and the file is removed at the end. */
  method IncludeArchiveCommand(sources: seq<Source>, archive: string, excludeArgs: seq<string>) returns (cmd: string)
    requires sources != [] && ExcludeArgs(excludeArgs, Excludes(sources))
    ensures CleanInputs(sources, archive) ==> Reads(cmd, IncludeRest(sources, archive))
  {
    hide Reads, ShellQuote, IncludeRest, CleanSource, EntryTokens, NulFree;
    var list := ShellQuote(archive + ".list");
    var listCmds: seq<string> := [];
    for i := 0 to |sources|
      invariant |listCmds| == i
      invariant forall k :: 0 <= k < i && CleanSource(sources[k]) ==> Reads(listCmds[k], EntryTokens(sources[k]))
    {
      var entry := ListEntry(sources[i]);
      listCmds := listCmds + [entry];
    }
    var tar := ["tar", "--null", "-T", list];
    tar := tar + excludeArgs;
    tar := tar + ["-czf", ShellQuote(archive)];
    var listing := Join(listCmds, " && ");
    var tarring := Join(tar, " ");
    cmd := "{" + " " + listing + "; " + ("}" + " > " + list) + " && " + tarring + "; "
           + ("status=$?" + "; " + ("rm" + " " + "-f" + " " + list) + "; " + ("exit" + " " + "$status"));
    if CleanInputs(sources, archive) {
      assert AllRead(listCmds, EntriesTokens(sources));
      ListingReads(listCmds, sources);
      TarReads(sources, archive, excludeArgs, tar);
      RestReads(sources, archive, listing, tarring);
    }
  }

  method ListEntry(s: Source) returns (entry: string)
    ensures CleanSource(s) ==> Reads(entry, EntryTokens(s))
  {
    hide Reads, ShellQuote, EntryTokens, NulFree;
    if |s.includes| == 0 {
      entry := "printf" + " " + "'%s\\000'" + " " + ShellQuote(s.remotePath);
      if CleanSource(s) {
        PrintfReads(s);
      }
      return;
    }
    var names: seq<string> := [];
    for i := 0 to |s.includes|
      invariant |names| == i
      invariant forall k :: 0 <= k < i ==> names[k] == "-name" + " " + ShellQuote(TrimSlashes(s.includes[k]))
    {
      names := names + ["-name" + " " + ShellQuote(TrimSlashes(s.includes[i]))];
    }
    entry := "find" + " " + ShellQuote(s.remotePath) + " " + "-mindepth" + " " + "1" + " " + "\\(" + " "
             + Join(names, " -o ") + " " + "\\)" + " " + "-prune" + " " + "-print0";
    if CleanSource(s) {
      FindReads(s, names);
    }
  }

  // ----- reading it back -----

  /** a, a blank and b: the two token lists in a row. */
  lemma Spaced(a: string, x: seq<Token>, b: string, y: seq<Token>)
    requires Reads(a, x) && Reads(b, y)
    ensures Reads(a + " " + b, x + y)
  {
    hide Reads, Separates;
    Blank();
    ReadsBoth(a, x, " ", [], b, y);
    assert x + [] + y == x + y;
  }

  lemma Operated(a: string, x: seq<Token>, sep: string, op: string, b: string, y: seq<Token>)
    requires Reads(a, x) && Reads(b, y)
    requires (op == "&&" && sep == " && ") || (op == ">" && sep == " > ") || (op == ";" && sep == "; ")
             || (op == "|" && sep == " | ")
    ensures Reads(a + sep + b, x + [Operator(op)] + y)
  {
    hide Reads, Separates;
    SeparatorReads(sep, op);
    ReadsBoth(a, x, sep, [Operator(op)], b, y);
  }

  lemma SeparatorReads(sep: string, op: string)
    requires (op == "&&" && sep == " && ") || (op == ">" && sep == " > ") || (op == ";" && sep == "; ")
             || (op == "|" && sep == " | ")
    ensures Separates(sep, [Operator(op)])
  {
    hide Separates;
    if op == ";" {
      SpacedOperator("", op);
      assert sep == "" + op + " ";
    } else {
      SpacedOperator(" ", op);
      assert sep == " " + op + " ";
    }
  }

  /** A literal option or command name. */
  lemma Name(w: string)
    requires w != "" && forall i :: 0 <= i < |w| ==> PlainChar(w[i])
    ensures Reads(w, Words([w]))
  {
    PlainWord(w);
    assert Words([w]) == [Word(w, false)];
  }

  lemma Arg(s: string)
    requires NulFree(s)
    ensures Reads(ShellQuote(s), Words([s]))
  {
    QuotedWord(s);
    assert Words([s]) == [Word(s, false)];
  }

  lemma WordsConcat(a: seq<string>, b: seq<string>)
    ensures Words(a) + Words(b) == Words(a + b)
  {
  }

  lemma MoreWords(a: string, ws: seq<string>, b: string, w: string)
    requires Reads(a, Words(ws)) && Reads(b, Words([w]))
    ensures Reads(a + " " + b, Words(ws + [w]))
  {
    hide Reads;
    Spaced(a, Words(ws), b, Words([w]));
    WordsConcat(ws, [w]);
  }

  lemma ThreeWords(a: string, u: string, b: string, v: string, c: string, w: string)
    requires Reads(a, Words([u])) && Reads(b, Words([v])) && Reads(c, Words([w]))
    ensures Reads(a + " " + b + " " + c, Words([u, v, w]))
  {
    hide Reads, Words;
    MoreWords(a, [u], b, v);
    MoreWords(a + " " + b, [u] + [v], c, w);
    assert [u] + [v] + [w] == [u, v, w];
  }

  lemma MkdirReads(dir: string)
    requires NulFree(dir)
    ensures Reads("mkdir" + " " + "-p" + " " + ShellQuote(dir), MkdirTokens(dir))
  {
    hide Reads, ShellQuote;
    Name("mkdir");
    Name("-p");
    Arg(dir);
    ThreeWords("mkdir", "mkdir", "-p", "-p", ShellQuote(dir), dir);
  }

  lemma {:induction false} ExcludesClean(sources: seq<Source>)
    requires forall i :: 0 <= i < |sources| ==> CleanSource(sources[i])
    ensures forall i :: 0 <= i < |Excludes(sources)| ==> NulFree(Excludes(sources)[i])
  {
    hide NulFree;
    if sources != [] {
      ExcludesClean(sources[..|sources| - 1]);
    }
  }

  lemma ExcludeArgsRead(args: seq<string>, patterns: seq<string>)
    requires ExcludeArgs(args, patterns) && forall i :: 0 <= i < |patterns| ==> NulFree(patterns[i])
    ensures EachWord(args, ExcludeWords(patterns))
  {
    hide Reads, ShellQuote;
    forall i | 0 <= i < |args|
      ensures Reads(args[i], [Word("--exclude=" + patterns[i], false)])
    {
      GluedWord("--exclude=", patterns[i]);
    }
  }

  lemma SourceArgsRead(args: seq<string>, sources: seq<Source>)
    requires SourceArgs(args, sources) && forall i :: 0 <= i < |sources| ==> NulFree(sources[i].remotePath)
    ensures EachWord(args, Paths(sources))
  {
    hide Reads, ShellQuote;
    forall i | 0 <= i < |args|
      ensures Reads(args[i], [Word(Paths(sources)[i], false)])
    {
      QuotedWord(sources[i].remotePath);
    }
  }

  lemma EachWordConcat(a: seq<string>, x: seq<string>, b: seq<string>, y: seq<string>)
    requires EachWord(a, x) && EachWord(b, y)
    ensures EachWord(a + b, x + y)
  {
    hide Reads;
  }

  lemma FixedArgs(archive: string)
    requires NulFree(archive)
    ensures EachWord(["tar"], ["tar"])
    ensures EachWord(["-czf", ShellQuote(archive)], ["-czf", archive])
    ensures EachWord(["-czf", ShellQuote(archive), "--"], ["-czf", archive, "--"])
  {
    hide Reads, ShellQuote;
    PlainWord("tar");
    PlainWord("-czf");
    QuotedWord(archive);
    PlainWord("--");
  }

  lemma PlainCommandReads(sources: seq<Source>, dir: string, archive: string, mkdir: string, excludeArgs: seq<string>,
                          sourceArgs: seq<string>, parts: seq<string>)
    requires Clean(sources, dir, archive)
    requires ExcludeArgs(excludeArgs, Excludes(sources)) && SourceArgs(sourceArgs, sources)
    requires mkdir == "mkdir" + " " + "-p" + " " + ShellQuote(dir)
    requires parts == [mkdir, "&&", "tar"] + excludeArgs + ["-czf", ShellQuote(archive), "--"] + sourceArgs
    ensures Lex(Join(parts, " ")) == Some(PlainTokens(sources, dir, archive))
  {
    var tar := ["tar"] + excludeArgs + ["-czf", ShellQuote(archive), "--"] + sourceArgs;
    var words := ["tar"] + ExcludeWords(Excludes(sources)) + ["-czf", archive, "--"] + Paths(sources);
    assert parts == [mkdir, "&&"] + tar;
    hide Reads, ShellQuote, Lex, NulFree, EachWord;
    TarWords(sources, archive, excludeArgs, sourceArgs);
    MkdirReads(dir);
    FirstAndRest(mkdir, MkdirTokens(dir), tar, words, parts);
  }

  lemma FirstAndRest(first: string, x: seq<Token>, rest: seq<string>, words: seq<string>, parts: seq<string>)
    requires Reads(first, x) && rest != [] && EachWord(rest, words) && parts == [first, "&&"] + rest
    ensures Lex(Join(parts, " ")) == Some(x + And + Words(words))
  {
    hide Reads, Lex, EachWord, Join, Words;
    JoinWords(rest, words);
    Operated(first, x, " && ", "&&", Join(rest, " "), Words(words));
    TwoFirst(first, "&&", rest, parts);
    assert " " + "&&" + " " == " && ";
    ReadsLex(Join(parts, " "), x + And + Words(words));
  }

  lemma TarWords(sources: seq<Source>, archive: string, excludeArgs: seq<string>, sourceArgs: seq<string>)
    requires CleanInputs(sources, archive)
    requires ExcludeArgs(excludeArgs, Excludes(sources)) && SourceArgs(sourceArgs, sources)
    ensures EachWord(["tar"] + excludeArgs + ["-czf", ShellQuote(archive), "--"] + sourceArgs,
                     ["tar"] + ExcludeWords(Excludes(sources)) + ["-czf", archive, "--"] + Paths(sources))
  {
    ExcludesClean(sources);
    ExcludeArgsRead(excludeArgs, Excludes(sources));
    SourceArgsRead(sourceArgs, sources);
    FixedArgs(archive);
    hide EachWord, ShellQuote;
    EachWordConcat(["tar"], ["tar"], excludeArgs, ExcludeWords(Excludes(sources)));
    EachWordConcat(["tar"] + excludeArgs, ["tar"] + ExcludeWords(Excludes(sources)),
                   ["-czf", ShellQuote(archive), "--"], ["-czf", archive, "--"]);
    EachWordConcat(["tar"] + excludeArgs + ["-czf", ShellQuote(archive), "--"],
                   ["tar"] + ExcludeWords(Excludes(sources)) + ["-czf", archive, "--"], sourceArgs, Paths(sources));
  }

  lemma TwoFirst(a: string, b: string, rest: seq<string>, parts: seq<string>)
    requires rest != [] && parts == [a, b] + rest
    ensures Join(parts, " ") == a + (" " + b + " ") + Join(rest, " ")
  {
    JoinSplits([a, b], rest, " ");
    assert [a, b][..1] == [a];
    assert Join([a, b], " ") == a + " " + b;
    assert a + " " + b + " " + Join(rest, " ") == a + (" " + b + " ") + Join(rest, " ");
  }

  lemma IncludeCommandReads(sources: seq<Source>, dir: string, archive: string, mkdir: string, rest: string)
    requires Clean(sources, dir, archive) && Reads(rest, IncludeRest(sources, archive))
    requires mkdir == "mkdir" + " " + "-p" + " " + ShellQuote(dir)
    ensures Lex(mkdir + " && " + rest) == Some(IncludeTokens(sources, dir, archive))
  {
    hide Reads, ShellQuote, Lex, Words, MkdirTokens, Interleave;
    MkdirReads(dir);
    Operated(mkdir, MkdirTokens(dir), " && ", "&&", rest, IncludeRest(sources, archive));
    ReadsLex(mkdir + " && " + rest, MkdirTokens(dir) + And + IncludeRest(sources, archive));
  }

  // ----- the include form -----

  lemma ListingReads(listCmds: seq<string>, sources: seq<Source>)
    requires sources != [] && AllRead(listCmds, EntriesTokens(sources))
    ensures Reads(Join(listCmds, " && "), Interleave(EntriesTokens(sources), And))
  {
    hide Reads, Separates;
    SeparatorReads(" && ", "&&");
    JoinReads(listCmds, EntriesTokens(sources), " && ", And);
  }

  lemma TarReads(sources: seq<Source>, archive: string, excludeArgs: seq<string>, tar: seq<string>)
    requires CleanInputs(sources, archive) && ExcludeArgs(excludeArgs, Excludes(sources))
    requires tar == ["tar", "--null", "-T", ShellQuote(archive + ".list")] + excludeArgs + ["-czf", ShellQuote(archive)]
    ensures Reads(Join(tar, " "), Words(["tar", "--null", "-T", archive + ".list"]
                                        + ExcludeWords(Excludes(sources)) + ["-czf", archive]))
  {
    hide Reads, ShellQuote;
    var list := archive + ".list";
    var first, words := ["tar", "--null", "-T", ShellQuote(list)], ["tar", "--null", "-T", list];
    assert EachWord(first, words) by {
      PlainWord("tar");
      PlainWord("--null");
      PlainWord("-T");
      QuotedWord(list);
    }
    ExcludesClean(sources);
    ExcludeArgsRead(excludeArgs, Excludes(sources));
    FixedArgs(archive);
    hide EachWord;
    EachWordConcat(first, words, excludeArgs, ExcludeWords(Excludes(sources)));
    EachWordConcat(first + excludeArgs, words + ExcludeWords(Excludes(sources)), ["-czf", ShellQuote(archive)],
                   ["-czf", archive]);
    JoinWords(tar, words + ExcludeWords(Excludes(sources)) + ["-czf", archive]);
  }

  lemma ExitReads(list: string)
    requires NulFree(list)
    ensures Reads("status=$?" + "; " + ("rm" + " " + "-f" + " " + ShellQuote(list)) + "; " + ("exit" + " " + "$status"),
                  ExitTokens(list))
  {
    hide Reads, ShellQuote;
    StatusWords();
    Name("rm");
    Name("-f");
    Arg(list);
    ThreeWords("rm", "rm", "-f", "-f", ShellQuote(list), list);
    PlainWord("exit");
    Spaced("exit", [Word("exit", false)], "$status", [Word("$status", true)]);
    var rm := "rm" + " " + "-f" + " " + ShellQuote(list);
    Operated("status=$?", [Word("status=$?", true)], "; ", ";", rm, Words(["rm", "-f", list]));
    Operated("status=$?" + "; " + rm, [Word("status=$?", true)] + Semi + Words(["rm", "-f", list]), "; ", ";",
             "exit" + " " + "$status", [Word("exit", false)] + [Word("$status", true)]);
    assert [Word("exit", false)] + [Word("$status", true)] == [Word("exit", false), Word("$status", true)];
  }

  /** The two parameter expansions of the command are read as such. */
  lemma StatusWords()
    ensures Reads("status=$?", [Word("status=$?", true)])
    ensures Reads("$status", [Word("$status", true)])
  {
    hide Reads;
    SpecialParameter("status=", '?');
    assert "status=" + "$" + ['?'] == "status=$?";
    NamedParameter("status");
    assert "$" + "status" == "$status";
  }

  lemma SpecialParameter(prefix: string, c: char)
    requires prefix != "" && c in "?*@#-!$" && forall i :: 0 <= i < |prefix| ==> PlainChar(prefix[i])
    ensures Reads(prefix + "$" + [c], [Word(prefix + "$" + [c], true)])
  {
    forall done: seq<Token>
      ensures ReadsFrom(done, prefix + "$" + [c], [Word(prefix + "$" + [c], true)])
    {
      hide Step, Unquoted, IsOperator, PlainChar;
      DollarReads(done, prefix, c);
      FeedConcat(Lexer(done, Between), prefix + "$", [c]);
      FeedConcat(Lexer(done, Between), prefix, "$");
      PlainReads(done, prefix);
      Feed1(Lexer(done, InWord(prefix, false)), '$');
      Feed1(Lexer(done, Dollar(prefix)), c);
    }
  }

  lemma NamedParameter(name: string)
    requires name != "" && 'a' <= name[0] <= 'z' && forall i :: 0 <= i < |name| ==> PlainChar(name[i])
    ensures Reads("$" + name, [Word("$" + name, true)])
  {
    forall done: seq<Token>
      ensures ReadsFrom(done, "$" + name, [Word("$" + name, true)])
    {
      FeedConcat(Lexer(done, Between), "$", name);
      Feed1(Lexer(done, Between), '$');
      PlainStep(Lexer(done, InWord("" + "$", true)), name[0]);
      PlainContinues(done, "" + "$" + [name[0]], true, name[1..]);
      assert "" + "$" + [name[0]] + name[1..] == "$" + name;
    }
  }

  lemma RestReads(sources: seq<Source>, archive: string, listing: string, tarring: string)
    requires NulFree(archive)
    requires Reads(listing, Interleave(EntriesTokens(sources), And))
    requires Reads(tarring, Words(["tar", "--null", "-T", archive + ".list"]
                                  + ExcludeWords(Excludes(sources)) + ["-czf", archive]))
    ensures var list := ShellQuote(archive + ".list");
            Reads("{" + " " + listing + "; " + ("}" + " > " + list) + " && " + tarring + "; "
                  + ("status=$?" + "; " + ("rm" + " " + "-f" + " " + list) + "; " + ("exit" + " " + "$status")),
                  IncludeRest(sources, archive))
  {
    var file := archive + ".list";
    assert NulFree(file);
    hide Reads, ShellQuote, Words, Interleave, ExitTokens;
    var list, entries := ShellQuote(file), Interleave(EntriesTokens(sources), And);
    var tarTokens := Words(["tar", "--null", "-T", file] + ExcludeWords(Excludes(sources)) + ["-czf", archive]);
    Name("{");
    Name("}");
    Arg(file);
    ExitReads(file);
    Spaced("{", Words(["{"]), listing, entries);
    Operated("}", Words(["}"]), " > ", ">", list, Words([file]));
    var a, x := "{" + " " + listing, Words(["{"]) + entries;
    var b, y := "}" + " > " + list, Words(["}"]) + [Operator(">")] + Words([file]);
    Operated(a, x, "; ", ";", b, y);
    Operated(a + "; " + b, x + Semi + y, " && ", "&&", tarring, tarTokens);
    Operated(a + "; " + b + " && " + tarring, x + Semi + y + And + tarTokens, "; ", ";",
             "status=$?" + "; " + ("rm" + " " + "-f" + " " + list) + "; " + ("exit" + " " + "$status"),
             ExitTokens(file));
  }

  lemma PrintfReads(s: Source)
    requires CleanSource(s) && s.includes == []
    ensures Reads("printf" + " " + "'%s\\000'" + " " + ShellQuote(s.remotePath), EntryTokens(s))
  {
    hide Reads, ShellQuote, Words;
    Name("printf");
    FormatReads("%s\\000", "'%s\\000'");
    Arg(s.remotePath);
    ThreeWords("printf", "printf", "'%s\\000'", "%s\\000", ShellQuote(s.remotePath), s.remotePath);
  }

  lemma FormatReads(format: string, quoted: string)
    requires NulFree(format) && '\'' !in format && quoted == "'" + format + "'"
    ensures Reads(quoted, Words([format]))
  {
    hide Reads;
    NothingToEscape(format);
    Arg(format);
  }

  lemma {:induction false} NothingToEscape(s: string)
    requires '\'' !in s
    ensures EscapeQuotes(s) == s && ShellQuote(s) == "'" + s + "'"
  {
    if s != "" {
      NothingToEscape(s[1..]);
    }
  }

  /** An escaped parenthesis is an ordinary word to the shell. */
  lemma Escape(c: char)
    requires c == '(' || c == ')'
    ensures Reads(['\\', c], Words([[c]]))
  {
    assert Words([[c]]) == [Word([c], false)];
    forall done: seq<Token>
      ensures ReadsFrom(done, ['\\', c], [Word([c], false)])
    {
      assert ['\\', c] == ['\\'] + [c];
      FeedConcat(Lexer(done, Between), ['\\'], [c]);
      Feed1(Lexer(done, Between), '\\');
      Feed1(Lexer(done, Escaped(Between)), c);
      assert "" + [c] == [c];
    }
  }

  lemma {:induction false} TrimClean(s: string)
    requires NulFree(s)
    ensures NulFree(TrimSlashes(s))
    decreases |s|
  {
    if s != "" {
      TrimClean(s[..|s| - 1]);
    }
  }

  lemma NamesRead(patterns: seq<string>, names: seq<string>)
    requires patterns != [] && |names| == |patterns| && forall i :: 0 <= i < |patterns| ==> NulFree(patterns[i])
    requires forall i :: 0 <= i < |names| ==> names[i] == "-name" + " " + ShellQuote(TrimSlashes(patterns[i]))
    ensures Reads(Join(names, " -o "), Interleave(NamesTokens(patterns), Words(["-o"])))
  {
    hide Reads, ShellQuote, NulFree, Separates;
    forall i | 0 <= i < |names|
      ensures Reads(names[i], NameTokens(patterns[i]))
    {
      TrimClean(patterns[i]);
      Name("-name");
      Arg(TrimSlashes(patterns[i]));
      MoreWords("-name", ["-name"], ShellQuote(TrimSlashes(patterns[i])), TrimSlashes(patterns[i]));
      assert ["-name"] + [TrimSlashes(patterns[i])] == ["-name", TrimSlashes(patterns[i])];
    }
    OrSeparates();
    JoinReads(names, NamesTokens(patterns), " -o ", Words(["-o"]));
  }

  lemma OrSeparates()
    ensures Separates(" -o ", Words(["-o"]))
  {
    Name("-o");
    Blank();
    hide Reads, Words;
    forall l: Lexer | l.mode.InWord?
      ensures Feed(l, " -o ") == Lexer(Settle(l).done + Words(["-o"]), Between)
    {
      assert " -o " == " " + "-o" + " ";
      FeedConcat(l, " " + "-o", " ");
      FeedConcat(l, " ", "-o");
      assert Feed(l, " ") == Lexer(Settle(l).done + [], Between);
      assert Settle(l).done + [] == Settle(l).done;
      WordThenBlank(Settle(l).done, "-o", Words(["-o"]));
    }
  }

  lemma WordThenBlank(done: seq<Token>, text: string, tokens: seq<Token>)
    requires Reads(text, tokens)
    ensures Feed(Feed(Lexer(done, Between), text), " ") == Lexer(done + tokens, Between)
  {
    assert ReadsFrom(done, text, tokens);
    Blank();
    assert done + tokens + [] == done + tokens;
  }

  lemma FindReads(s: Source, names: seq<string>)
    requires CleanSource(s) && s.includes != [] && |names| == |s.includes|
    requires forall i :: 0 <= i < |names| ==> names[i] == "-name" + " " + ShellQuote(TrimSlashes(s.includes[i]))
    ensures Reads("find" + " " + ShellQuote(s.remotePath) + " " + "-mindepth" + " " + "1" + " " + "\\(" + " "
                  + Join(names, " -o ") + " " + "\\)" + " " + "-prune" + " " + "-print0", EntryTokens(s))
  {
    hide Reads, ShellQuote, NulFree, Interleave;
    NamesRead(s.includes, names);
    FindHead(s.remotePath);
    var head := "find" + " " + ShellQuote(s.remotePath) + " " + "-mindepth" + " " + "1" + " " + "\\(";
    var x := Words(["find", s.remotePath, "-mindepth", "1", "("]);
    var y := Interleave(NamesTokens(s.includes), Words(["-o"]));
    Spaced(head, x, Join(names, " -o "), y);
    Escape(')');
    Name("-prune");
    Name("-print0");
    hide Words;
    var a := head + " " + Join(names, " -o ");
    Spaced(a, x + y, "\\)", Words([")"]));
    Spaced(a + " " + "\\)", x + y + Words([")"]), "-prune", Words(["-prune"]));
    Spaced(a + " " + "\\)" + " " + "-prune", x + y + Words([")"]) + Words(["-prune"]), "-print0", Words(["-print0"]));
    WordsConcat([")"], ["-prune"]);
    WordsConcat([")"] + ["-prune"], ["-print0"]);
    assert [")"] + ["-prune"] + ["-print0"] == [")", "-prune", "-print0"];
    assert x + y + Words([")"]) + Words(["-prune"]) + Words(["-print0"])
        == x + y + (Words([")"]) + Words(["-prune"]) + Words(["-print0"]));
  }

  lemma FindHead(path: string)
    requires NulFree(path)
    ensures Reads("find" + " " + ShellQuote(path) + " " + "-mindepth" + " " + "1" + " " + "\\(",
                  Words(["find", path, "-mindepth", "1", "("]))
  {
    hide Reads, ShellQuote;
    Name("find");
    Arg(path);
    Name("-mindepth");
    Name("1");
    Escape('(');
    hide Words;
    MoreWords("find", ["find"], ShellQuote(path), path);
    MoreWords("find" + " " + ShellQuote(path), ["find"] + [path], "-mindepth", "-mindepth");
    MoreWords("find" + " " + ShellQuote(path) + " " + "-mindepth", ["find"] + [path] + ["-mindepth"], "1", "1");
    MoreWords("find" + " " + ShellQuote(path) + " " + "-mindepth" + " " + "1",
              ["find"] + [path] + ["-mindepth"] + ["1"], "\\(", "(");
    assert ["find"] + [path] + ["-mindepth"] + ["1"] + ["("] == ["find", path, "-mindepth", "1", "("];
  }
}
