/**
 * Shell quoting against an independent lexer: quoting by backslash and single quotes and token
 * recognition, after sections 2.2.1, 2.2.2 and 2.3 of the POSIX.1-2017 Shell Command Language.
 */
module Shell {
  import opened Domain
  import opened Strings

  /** expands: the word holds an unquoted character that a later expansion would act on. */
  datatype Token = Word(text: string, expands: bool) | Operator(text: string)

  datatype Mode =
    | Between
    | InWord(text: string, expands: bool)
    | InOperator(op: string)
    | Escaped(back: Mode)
    | Quoted(text: string, expands: bool)
    | Dollar(text: string)
    | Comment
    | Failed

  datatype Lexer = Lexer(done: seq<Token>, mode: Mode)

  const NUL := 0 as char

  predicate IsOperator(s: string) {
    s in {"&", "&&", "|", "||", ";", ";;", "<", ">", "<<", ">>", "<&", ">&", "<>", "<<-", ">|", "(", ")", "\n"}
  }

  /** Delimits the token being read. */
  function Settle(l: Lexer): Lexer {
    match l.mode
    case InWord(t, e) => Lexer(l.done + [Word(t, e)], Between)
    case InOperator(op) => Lexer(l.done + [Operator(op)], Between)
    case Dollar(t) => Lexer(l.done + [Word(t + "$", true)], Between)
    case Comment => Lexer(l.done, Between)
    case _ => l
  }

  /** The word being read, or an empty new one. */
  function Begin(l: Lexer): (b: Lexer)
    ensures b.mode.InWord?
  {
    if l.mode.InWord? then l else Lexer(Settle(l).done, InWord("", false))
  }

  function Append(l: Lexer, c: char, expands: bool): Lexer {
    var b := Begin(l);
    Lexer(b.done, InWord(b.mode.text + [c], b.mode.expands || expands))
  }

  /** Rules 2 to 10 of token recognition; double quotes and command substitution are not read. */
  function Unquoted(l: Lexer, c: char): Lexer {
    if l.mode.InOperator? && IsOperator(l.mode.op + [c]) then Lexer(l.done, InOperator(l.mode.op + [c]))
    else if c == '\'' then
      var b := Begin(l);
      Lexer(b.done, Quoted(b.mode.text, b.mode.expands))
    else if c == '\\' then Lexer(l.done, Escaped(l.mode))
    else if c == '$' then
      var b := Begin(l);
      Lexer(b.done, Dollar(b.mode.text))
    else if c == '`' || c == '"' then Lexer(l.done, Failed)
    else if IsOperator([c]) then Lexer(Settle(l).done, InOperator([c]))
    else if c == ' ' || c == '\t' then Settle(l)
    else if c == '#' && !l.mode.InWord? then Lexer(Settle(l).done, Comment)
    else Append(l, c, c in "*?[~")
  }

  function Step(l: Lexer, c: char): Lexer {
    if c == NUL then Lexer(l.done, Failed)
    else match l.mode
      case Failed => l
      case Quoted(t, e) => if c == '\'' then Lexer(l.done, InWord(t, e)) else Lexer(l.done, Quoted(t + [c], e))
      case Escaped(back) => if c == '\n' then Lexer(l.done, back) else Append(Lexer(l.done, back), c, false)
      case Comment => if c == '\n' then Lexer(l.done, InOperator("\n")) else l
      case Dollar(t) =>
        if c in "({'" then Lexer(l.done, Failed)
        else if c in "?*@#-!$" then Lexer(l.done, InWord(t + "$" + [c], true))
        else Unquoted(Lexer(l.done, InWord(t + "$", true)), c)
      case _ => Unquoted(l, c)
  }

  function Feed(l: Lexer, s: string): Lexer
    decreases |s|
  {
    if s == "" then l else Feed(Step(l, s[0]), s[1..])
  }

  /** The tokens of a command line, or None when a quote is left open or it cannot be read. */
  function Lex(s: string): Option<seq<Token>> {
    var l := Feed(Lexer([], Between), s);
    if l.mode.Quoted? || l.mode.Escaped? || l.mode.Failed? then None else Some(Settle(l).done)
  }

  // ----- the code -----

  function EscapeQuotes(s: string): string {
    if s == "" then "" else (if s[0] == '\'' then "'\\''" else [s[0]]) + EscapeQuotes(s[1..])
  }

  function ShellQuote(s: string): string {
    "'" + EscapeQuotes(s) + "'"
  }

  // ----- reading quoted text -----

  lemma {:induction false} FeedConcat(l: Lexer, a: string, b: string)
    ensures Feed(l, a + b) == Feed(Feed(l, a), b)
    decreases |a|
  {
    if a == "" {
      assert a + b == b;
    } else {
      assert (a + b)[1..] == a[1..] + b;
      FeedConcat(Step(l, a[0]), a[1..], b);
    }
  }

  lemma {:induction false} FailureStays(l: Lexer, s: string)
    requires l.mode == Failed
    ensures Feed(l, s).mode == Failed
    decreases |s|
  {
    if s != "" {
      FailureStays(Step(l, s[0]), s[1..]);
    }
  }

  lemma {:induction false} NulFails(l: Lexer, s: string)
    requires NUL in s
    ensures Feed(l, s).mode == Failed
    decreases |s|
  {
    if s[0] == NUL {
      FailureStays(Step(l, s[0]), s[1..]);
    } else {
      assert NUL in s[1..];
      NulFails(Step(l, s[0]), s[1..]);
    }
  }

  lemma Feed1(l: Lexer, c: char)
    ensures Feed(l, [c]) == Step(l, c)
  {
    assert [c][1..] == "";
  }

  /** Leaving the quotes, one escaped quote, and back into the quotes. */
  lemma EscapedQuote(done: seq<Token>, t: string, e: bool)
    ensures Feed(Lexer(done, Quoted(t, e)), "'\\''") == Lexer(done, Quoted(t + "'", e))
  {
    var s := "'\\''";
    assert s == ['\''] + (['\\'] + (['\''] + ['\'']));
    FeedConcat(Lexer(done, Quoted(t, e)), ['\''], ['\\'] + (['\''] + ['\'']));
    FeedConcat(Lexer(done, InWord(t, e)), ['\\'], ['\''] + ['\'']);
    FeedConcat(Lexer(done, Escaped(InWord(t, e))), ['\''], ['\'']);
    Feed1(Lexer(done, Quoted(t, e)), '\'');
    Feed1(Lexer(done, InWord(t, e)), '\\');
    Feed1(Lexer(done, Escaped(InWord(t, e))), '\'');
    Feed1(Lexer(done, InWord(t + "'", e)), '\'');
  }

  lemma {:induction false} QuotedBody(done: seq<Token>, t: string, e: bool, s: string)
    requires NUL !in s
    ensures Feed(Lexer(done, Quoted(t, e)), EscapeQuotes(s)) == Lexer(done, Quoted(t + s, e))
    decreases |s|
  {
    if s == "" {
      assert t + s == t;
    } else {
      var head := if s[0] == '\'' then "'\\''" else [s[0]];
      FeedConcat(Lexer(done, Quoted(t, e)), head, EscapeQuotes(s[1..]));
      if s[0] == '\'' {
        EscapedQuote(done, t, e);
      } else {
        Feed1(Lexer(done, Quoted(t, e)), s[0]);
      }
      QuotedBody(done, t + [s[0]], e, s[1..]);
      assert t + [s[0]] + s[1..] == t + s;
    }
  }

  /** Quoted text extends the word being read by exactly s, or starts one. */
  lemma QuoteReads(l: Lexer, s: string)
    requires NUL !in s && (l.mode.Between? || l.mode.InWord?)
    ensures Feed(l, ShellQuote(s)) == Lexer(l.done, InWord(Begin(l).mode.text + s, Begin(l).mode.expands))
  {
    var b := Begin(l);
    var open := Lexer(l.done, Quoted(b.mode.text, b.mode.expands));
    assert ShellQuote(s) == "'" + (EscapeQuotes(s) + "'");
    FeedConcat(l, "'", EscapeQuotes(s) + "'");
    Feed1(l, '\'');
    FeedConcat(open, EscapeQuotes(s), "'");
    QuotedBody(l.done, b.mode.text, b.mode.expands, s);
    Feed1(Lexer(l.done, Quoted(b.mode.text + s, b.mode.expands)), '\'');
  }

  lemma {:induction false} NulSurvives(s: string)
    ensures NUL in ShellQuote(s) <==> NUL in s
    ensures NUL in EscapeQuotes(s) <==> NUL in s
  {
    if s != "" {
      NulSurvives(s[1..]);
      assert s == [s[0]] + s[1..];
    }
  }

  /** The round trip: a quoted string is read back as one word, itself, exactly when it has no NUL. */
  lemma QuoteRoundTrip(s: string)
    ensures Lex(ShellQuote(s)) == Some([Word(s, false)]) <==> NUL !in s
    ensures NUL in s ==> Lex(ShellQuote(s)) == None
  {
    if NUL in s {
      NulSurvives(s);
      NulFails(Lexer([], Between), ShellQuote(s));
    } else {
      QuotedWord(s);
      ReadsLex(ShellQuote(s), [Word(s, false)]);
    }
  }

  // ----- reading command lines piece by piece -----

  /** From between tokens, the text reads as these tokens and ends inside the last, a word. */
  ghost predicate Reads(text: string, tokens: seq<Token>) {
    forall done: seq<Token> :: ReadsFrom(done, text, tokens)
  }

  ghost predicate ReadsFrom(done: seq<Token>, text: string, tokens: seq<Token>) {
    var l := Feed(Lexer(done, Between), text);
    l.mode.InWord? && Settle(l) == Lexer(done + tokens, Between)
  }

  lemma ReadsLex(text: string, tokens: seq<Token>)
    requires Reads(text, tokens)
    ensures Lex(text) == Some(tokens)
  {
    assert ReadsFrom([], text, tokens);
    assert [] + tokens == tokens;
  }

  /** Characters that mean nothing special anywhere in a word. */
  predicate PlainChar(c: char) {
    'a' <= c <= 'z' || 'A' <= c <= 'Z' || '0' <= c <= '9' || c in "-=/_.%:+,{}"
  }

  lemma PlainStep(l: Lexer, c: char)
    requires PlainChar(c) && (l.mode.Between? || l.mode.InWord?)
    ensures Step(l, c) == Append(l, c, false)
  {
    assert !IsOperator([c]) by {
      assert [c][0] == c;
    }
  }

  lemma PlainInWord(done: seq<Token>, t: string, e: bool, c: char)
    requires PlainChar(c)
    ensures Step(Lexer(done, InWord(t, e)), c) == Lexer(done, InWord(t + [c], e))
  {
    hide PlainChar, Step;
    PlainStep(Lexer(done, InWord(t, e)), c);
  }

  lemma {:induction false} PlainContinues(done: seq<Token>, t: string, e: bool, w: string)
    requires forall i :: 0 <= i < |w| ==> PlainChar(w[i])
    ensures Feed(Lexer(done, InWord(t, e)), w) == Lexer(done, InWord(t + w, e))
    decreases |w|
  {
    hide PlainChar, Step, Unquoted, IsOperator, Settle, Append;
    if w == "" {
      assert t + w == t;
    } else {
      PlainInWord(done, t, e, w[0]);
      PlainContinues(done, t + [w[0]], e, w[1..]);
      assert t + [w[0]] + w[1..] == t + w;
    }
  }

  lemma PlainReads(done: seq<Token>, w: string)
    requires w != "" && forall i :: 0 <= i < |w| ==> PlainChar(w[i])
    ensures Feed(Lexer(done, Between), w) == Lexer(done, InWord(w, false))
  {
    hide PlainChar, Step, Unquoted, IsOperator;
    PlainStep(Lexer(done, Between), w[0]);
    PlainContinues(done, "" + [w[0]], false, w[1..]);
    assert "" + [w[0]] + w[1..] == w;
  }

  lemma PlainWord(w: string)
    requires w != "" && forall i :: 0 <= i < |w| ==> PlainChar(w[i])
    ensures Reads(w, [Word(w, false)])
  {
    forall done: seq<Token>
      ensures ReadsFrom(done, w, [Word(w, false)])
    {
      PlainReads(done, w);
    }
  }

  lemma QuotedWord(s: string)
    requires NUL !in s
    ensures Reads(ShellQuote(s), [Word(s, false)])
  {
    forall done: seq<Token>
      ensures ReadsFrom(done, ShellQuote(s), [Word(s, false)])
    {
      QuoteReads(Lexer(done, Between), s);
      assert "" + s == s;
    }
  }

  /** Quoting also works glued to a plain prefix such as an option name. */
  lemma GluedWord(prefix: string, s: string)
    requires prefix != "" && NUL !in s && forall i :: 0 <= i < |prefix| ==> PlainChar(prefix[i])
    ensures Reads(prefix + ShellQuote(s), [Word(prefix + s, false)])
  {
    forall done: seq<Token>
      ensures ReadsFrom(done, prefix + ShellQuote(s), [Word(prefix + s, false)])
    {
      FeedConcat(Lexer(done, Between), prefix, ShellQuote(s));
      PlainReads(done, prefix);
      QuoteReads(Lexer(done, InWord(prefix, false)), s);
    }
  }

  /** What a separator does between two pieces: a blank alone, or a blank-delimited operator. */
  ghost predicate Separates(sep: string, tokens: seq<Token>) {
    forall l: Lexer :: l.mode.InWord? ==> Feed(l, sep) == Lexer(Settle(l).done + tokens, Between)
  }

  lemma ReadsBoth(a: string, x: seq<Token>, sep: string, m: seq<Token>, b: string, y: seq<Token>)
    requires Reads(a, x) && Reads(b, y) && Separates(sep, m)
    ensures Reads(a + sep + b, x + m + y)
  {
    forall done: seq<Token>
      ensures ReadsFrom(done, a + sep + b, x + m + y)
    {
      FeedConcat(Lexer(done, Between), a + sep, b);
      FeedConcat(Lexer(done, Between), a, sep);
      assert ReadsFrom(done, a, x);
      assert ReadsFrom(done + x + m, b, y);
      assert done + (x + m + y) == done + x + m + y;
    }
  }

  lemma Blank()
    ensures Separates(" ", [])
  {
    forall l: Lexer | l.mode.InWord?
      ensures Feed(l, " ") == Lexer(Settle(l).done + [], Between)
    {
      Feed1(l, ' ');
      assert Settle(l).done + [] == Settle(l).done;
    }
  }

  /** An operator that is written with a blank after it, and with one before it or right after a word. */
  lemma SpacedOperator(before: string, op: string)
    requires before == " " || before == ""
    requires op == "&&" || op == ";" || op == ">" || op == "|"
    ensures Separates(before + op + " ", [Operator(op)])
  {
    forall l: Lexer | l.mode.InWord?
      ensures Feed(l, before + op + " ") == Lexer(Settle(l).done + [Operator(op)], Between)
    {
      FeedConcat(l, before + op, " ");
      FeedConcat(l, before, op);
      if before == " " {
        Feed1(l, ' ');
        OperatorReads(Settle(l), op);
      } else {
        OperatorReads(l, op);
      }
      Feed1(Lexer(Settle(l).done, InOperator(op)), ' ');
      assert op + " " !in {"&&", "||", ";;", "<<", ">>", "<&", ">&", "<>", "<<-", ">|"} by {
        assert (op + " ")[|op|] == ' ';
      }
    }
  }

  lemma OperatorReads(l: Lexer, op: string)
    requires op == "&&" || op == ";" || op == ">" || op == "|"
    requires l.mode.InWord? || l.mode.Between?
    ensures Feed(l, op) == Lexer(Settle(l).done, InOperator(op))
  {
    if op == "&&" {
      assert op == ['&'] + ['&'];
      FeedConcat(l, ['&'], ['&']);
      Feed1(l, '&');
      Feed1(Lexer(Settle(l).done, InOperator("&")), '&');
    } else {
      assert op == [op[0]];
      Feed1(l, op[0]);
    }
  }

  /** A redirection written without blanks: the word before it ends there, and the file name follows the operator. */
  lemma RedirectReads(a: string, x: seq<Token>, w: string)
    requires Reads(a, x) && w != "" && forall i :: 0 <= i < |w| ==> PlainChar(w[i])
    ensures Reads(a + ">" + w, x + [Operator(">"), Word(w, false)])
  {
    hide PlainChar, Reads;
    forall done: seq<Token>
      ensures ReadsFrom(done, a + ">" + w, x + [Operator(">"), Word(w, false)])
    {
      FeedConcat(Lexer(done, Between), a + ">", w);
      FeedConcat(Lexer(done, Between), a, ">");
      AllReadFrom(done, a, x);
      var l := Feed(Lexer(done, Between), a);
      OperatorReads(l, ">");
      AfterOperator(done + x, w[0]);
      assert w == [w[0]] + w[1..];
      FeedConcat(Lexer(done + x, InOperator(">")), [w[0]], w[1..]);
      Feed1(Lexer(done + x, InOperator(">")), w[0]);
      PlainContinues(done + x + [Operator(">")], [w[0]], false, w[1..]);
      assert done + (x + [Operator(">"), Word(w, false)]) == done + x + [Operator(">")] + [Word(w, false)];
    }
    FromAll(a + ">" + w, x + [Operator(">"), Word(w, false)]);
  }

  lemma AllReadFrom(done: seq<Token>, text: string, tokens: seq<Token>)
    requires Reads(text, tokens)
    ensures ReadsFrom(done, text, tokens)
  {
  }

  lemma FromAll(text: string, tokens: seq<Token>)
    requires forall done: seq<Token> :: ReadsFrom(done, text, tokens)
    ensures Reads(text, tokens)
  {
  }

  lemma PlainIsNoOperator(c: char)
    requires PlainChar(c)
    ensures !IsOperator([c])
  {
    assert [c][0] == c;
  }

  lemma PlainEndsOperator(c: char)
    requires PlainChar(c)
    ensures !IsOperator(">" + [c])
  {
    var t := ">" + [c];
    assert |t| == 2 && t[0] == '>' && t[1] == c;
    hide PlainChar;
    if IsOperator(t) {
      assert t == ">>" || t == ">&" || t == ">|";
      PlainIsNone(c);
    }
  }

  lemma PlainIsNone(c: char)
    requires PlainChar(c)
    ensures c != '>' && c != '&' && c != '|' && c != '\'' && c != '\\' && c != '$' && c != '`' && c != '"'
    ensures c != ' ' && c != '\t' && c != '#' && c != NUL && c !in "*?[~"
  {
  }

  lemma AfterOperator(done: seq<Token>, c: char)
    requires PlainChar(c)
    ensures Step(Lexer(done, InOperator(">")), c) == Lexer(done + [Operator(">")], InWord([c], false))
  {
    hide IsOperator, PlainChar;
    PlainIsNoOperator(c);
    PlainEndsOperator(c);
    PlainIsNone(c);
    assert "" + [c] == [c];
  }

  /** A dollar sign opens a parameter; one of the special characters after it is its name. */
  lemma DollarReads(done: seq<Token>, t: string, c: char)
    requires c in "?*@#-!$"
    ensures Step(Lexer(done, InWord(t, false)), '$') == Lexer(done, Dollar(t))
    ensures Step(Lexer(done, Dollar(t)), c) == Lexer(done, InWord(t + "$" + [c], true))
  {
  }

  // ----- joined pieces -----

  ghost predicate AllRead(parts: seq<string>, tokens: seq<seq<Token>>) {
    |parts| == |tokens| && forall i :: 0 <= i < |parts| ==> Reads(parts[i], tokens[i])
  }

  function Interleave(tokens: seq<seq<Token>>, sep: seq<Token>): seq<Token> {
    if tokens == [] then []
    else if |tokens| == 1 then tokens[0]
    else Interleave(tokens[..|tokens| - 1], sep) + sep + tokens[|tokens| - 1]
  }

  lemma {:induction false} JoinReads(parts: seq<string>, tokens: seq<seq<Token>>, sep: string, m: seq<Token>)
    requires parts != [] && AllRead(parts, tokens) && Separates(sep, m)
    ensures Reads(Join(parts, sep), Interleave(tokens, m))
  {
    hide Reads, Separates;
    if |parts| > 1 {
      var n := |parts| - 1;
      JoinReads(parts[..n], tokens[..n], sep, m);
      ReadsBoth(Join(parts[..n], sep), Interleave(tokens[..n], m), sep, m, parts[n], tokens[n]);
    }
  }

  function Words(ws: seq<string>): (tokens: seq<Token>)
    ensures |tokens| == |ws|
  {
    seq(|ws|, i requires 0 <= i < |ws| => Word(ws[i], false))
  }

  ghost predicate EachWord(parts: seq<string>, ws: seq<string>) {
    |parts| == |ws| && forall i :: 0 <= i < |parts| ==> Reads(parts[i], [Word(ws[i], false)])
  }

  /** Pieces that each read as one word, joined by blanks, read as those words. */
  lemma {:induction false} JoinWords(parts: seq<string>, ws: seq<string>)
    requires parts != [] && EachWord(parts, ws)
    ensures Reads(Join(parts, " "), Words(ws))
  {
    hide Reads, Separates;
    if |parts| == 1 {
      assert Words(ws) == [Word(ws[0], false)];
    } else {
      var n := |parts| - 1;
      JoinWords(parts[..n], ws[..n]);
      Blank();
      ReadsBoth(Join(parts[..n], " "), Words(ws[..n]), " ", [], parts[n], [Word(ws[n], false)]);
      assert Words(ws[..n]) + [] + [Word(ws[n], false)] == Words(ws);
    }
  }
}
