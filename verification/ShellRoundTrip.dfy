/** The shell's parser undoes a fully parenthesised printer (user/sh.c). */
module ShellRoundTrip {
  import opened ShellParser

  /** No white space in front. */
  predicate Solid(s: string) { s == "" || !IsSpace(s[0]) }

  /** What may follow a whole command line: nothing, or the end of a block. */
  predicate Stop(s: string) { s == "" || s[0] == ')' }

  /** r is the command t, with rest left over. */
  ghost predicate Gives(r: Result<Cmd>, t: Tree, rest: string) { r.Ok? && r.rest == rest && Plain(r.value) == t }

  // ---- Tokens ----

  lemma SymbolToken(c: char, s: string)
    requires IsSymbol(c) && Solid(s) && (c == '>' ==> s == "" || s[0] != '>')
    ensures GetToken([c] + s) == (Symbol(c), s) && Skip([c] + s) == [c] + s
  {
    assert ([c] + s)[1..] == s;
  }

  lemma {:induction false} WordEnds(w: string, s: string)
    requires (forall i :: 0 <= i < |w| ==> IsWord(w[i])) && (s == "" || !IsWord(s[0]))
    ensures WordLen(w + s) == |w|
  {
    if w == "" {
      assert w + s == s;
    } else {
      assert (w + s)[1..] == w[1..] + s;
      WordEnds(w[1..], s);
    }
  }

  lemma WordToken(w: string, s: string)
    requires GoodWord(w) && (s == "" || !IsWord(s[0]))
    ensures GetToken(w + s) == (AWord(Word(w, |w + s|, |s|)), Skip(s)) && Skip(w + s) == w + s
  {
    WordEnds(w, s);
    assert (w + s)[0] == w[0] && IsWord(w[0]);
    assert (w + s)[..|w|] == w && (w + s)[|w|..] == s;
  }

  lemma NoRedirs(s: string)
    requires Solid(s) && (s == "" || (s[0] != '<' && s[0] != '>'))
    ensures Redirs(s) == Ok([], s) && Skip(s) == s
  {
  }

  // ---- Simple commands ----

  /** One turn of parseexec's loop. */
  lemma OneWord(done: seq<Word>, w: string, tail: string)
    requires GoodWord(w) && |done| + 1 < MAXARGS && Solid(tail) && (tail == "" || (tail[0] != '<' && tail[0] != '>'))
    ensures var s := w + (" " + tail);
            ExecLoop(done, [], s) == ExecLoop(done + [Word(w, |s|, |tail| + 1)], [], tail)
  {
    var s := w + (" " + tail);
    WordToken(w, " " + tail);
    assert (" " + tail)[1..] == tail;
    assert Skip(" " + tail) == Skip(tail) == tail;
    NoRedirs(tail);
    assert s[0] == w[0] && IsWord(s[0]);
    hide Redirs, GetToken, Skip;
    assert !Peek(s, "|)&;");
    var none: seq<Redirection> := [];
    assert none + none == none;
  }

  lemma LoopStops(done: seq<Word>, rest: string)
    requires Stop(rest)
    ensures ExecLoop(done, [], rest) == Ok(Exec(done), rest)
  {
  }

  lemma {:induction false} WordsParse(done: seq<Word>, args: seq<string>, rest: string)
    requires Stop(rest) && |done| + |args| < MAXARGS && forall i :: 0 <= i < |args| ==> GoodWord(args[i])
    ensures Gives(ExecLoop(done, [], Words(args) + rest), TExec(Texts(done) + args), rest)
    decreases |args|
  {
    hide ExecLoop, GoodWord;
    var s := Words(args) + rest;
    if args == [] {
      LoopStops(done, rest);
      assert s == rest && Texts(done) + args == Texts(done);
    } else {
      var w, tail := args[0], Words(args[1..]) + rest;
      assert s == w + (" " + tail);
      SolidWords(args[1..], rest);
      OneWord(done, w, tail);
      var word := Word(w, |s|, |tail| + 1);
      WordsParse(done + [word], args[1..], rest);
      assert Texts(done + [word]) + args[1..] == Texts(done) + args;
    }
  }

  lemma SolidWords(args: seq<string>, rest: string)
    requires Stop(rest) && forall i :: 0 <= i < |args| ==> GoodWord(args[i])
    ensures var s := Words(args) + rest; Solid(s) && (s == "" || (s[0] != '<' && s[0] != '>' && s[0] != '('))
  {
    if args != [] { assert (Words(args) + rest)[0] == args[0][0] && IsWord(args[0][0]); }
  }

  // ---- Blocks ----

  lemma BlockParse(t: Tree, after: string, rs: seq<Redirection>, rest: string)
    requires Gives(ParseLine(Print(t) + (")" + after)), t, ")" + after) && SolidPrint(t)
    requires Solid(after) && Redirs(after) == Ok(rs, rest)
    ensures var r := ParseExec("(" + (Print(t) + (")" + after)));
            r.Ok? && r.rest == rest && exists c :: Plain(c) == t && r.value == Wrap(c, rs)
  {
    var inner := Print(t) + (")" + after);
    SymbolToken('(', inner);
    SymbolToken(')', after);
    var c := ParseLine(inner).value;
    assert Plain(c) == t;
  }

  /** Printed commands do not begin with white space. */
  ghost predicate SolidPrint(t: Tree) { forall s :: Stop(s) ==> Solid(Print(t) + s) }

  lemma PrintSolid(t: Tree)
    requires Printable(t)
    ensures SolidPrint(t)
  {
    forall s | Stop(s)
      ensures Solid(Print(t) + s)
    {
      if t.TExec? { SolidWords(t.args, s); }
    }
  }

  /** A block that nothing is redirected from or to. */
  lemma PlainBlock(t: Tree, after: string)
    requires Gives(ParseLine(Print(t) + (")" + after)), t, ")" + after) && SolidPrint(t)
    requires Solid(after) && (after == "" || (after[0] != '<' && after[0] != '>'))
    ensures Gives(ParseExec("(" + (Print(t) + (")" + after))), t, after)
  {
    NoRedirs(after);
    BlockParse(t, after, [], after);
  }

  // ---- What follows a command ----

  /** With nothing behind it a command is a whole pipeline and a whole line. */
  lemma WholeLine(s: string, t: Tree, rest: string)
    requires Gives(ParseExec(s), t, rest) && Stop(rest)
    ensures Gives(ParsePipe(s), t, rest) && Gives(ParseLine(s), t, rest)
  {
    hide ParseExec;
  }

  lemma RedirLine(d: Tree, file: string, mode: Mode, rest: string)
    requires Gives(ParseLine(Print(d) + (")" + (Arrow(mode) + (file + rest)))), d, ")" + (Arrow(mode) + (file + rest)))
    requires SolidPrint(d) && GoodWord(file) && Stop(rest)
    ensures Gives(ParseLine("(" + (Print(d) + (")" + (Arrow(mode) + (file + rest))))), TRedir(d, file, mode), rest)
  {
    var after := Arrow(mode) + (file + rest);
    var word := Word(file, |file + rest|, |rest|);
    OneRedir(file, mode, rest);
    BlockParse(d, after, [Redirection(word, mode)], rest);
    var s := "(" + (Print(d) + (")" + after));
    var c :| Plain(c) == d && ParseExec(s).value == Wrap(c, [Redirection(word, mode)]);
    assert [Redirection(word, mode)][..0] == [];
    assert Wrap(c, []) == c;
    WholeLine(s, TRedir(d, file, mode), rest);
  }

  function ArrowToken(mode: Mode): Token {
    match mode
    case In => Symbol('<')
    case Out => Symbol('>')
    case Append => Double
  }

  lemma ArrowReads(mode: Mode, tail: string)
    requires tail != "" && IsWord(tail[0])
    ensures var s := Arrow(mode) + tail;
            GetToken(s) == (ArrowToken(mode), tail) && Peek(s, "<>") && Solid(s)
  {
    var s := Arrow(mode) + tail;
    assert Skip(tail) == tail;
    match mode
    case In => assert s == ['<'] + tail; SymbolToken('<', tail);
    case Out => assert s == ['>'] + tail; SymbolToken('>', tail);
    case Append => assert s[2..] == tail;
  }

  lemma OneRedir(file: string, mode: Mode, rest: string)
    requires GoodWord(file) && Stop(rest)
    ensures var s := Arrow(mode) + (file + rest);
            Solid(s) && Redirs(s) == Ok([Redirection(Word(file, |file + rest|, |rest|), mode)], rest)
  {
    var tail := file + rest;
    assert tail[0] == file[0] && IsWord(tail[0]);
    WordToken(file, rest);
    NoRedirs(rest);
    ArrowReads(mode, tail);
    var r := Redirection(Word(file, |tail|, |rest|), mode);
    assert [r] + [] == [r];
    hide GetToken, Peek, Skip;
  }

  lemma PipeLine(l: Tree, r: Tree, rest: string)
    requires SolidPrint(l) && SolidPrint(r) && Stop(rest)
    requires var second := "(" + (Print(r) + (")" + rest));
             Gives(ParseLine(Print(l) + (")" + ("|" + second))), l, ")" + ("|" + second))
    requires Gives(ParseLine(Print(r) + (")" + rest)), r, ")" + rest)
    ensures var second := "(" + (Print(r) + (")" + rest));
            Gives(ParseLine("(" + (Print(l) + (")" + ("|" + second)))), TPipe(l, r), rest)
  {
    var second := "(" + (Print(r) + (")" + rest));
    var s := "(" + (Print(l) + (")" + ("|" + second)));
    hide ParseLine, ParseExec, ParsePipe;
    PlainBlock(l, "|" + second);
    PlainBlock(r, rest);
    LastOfPipe(second, r, rest);
    PipeOfTwo(s, l, r, second, rest);
    LineOfPipe(s, TPipe(l, r), rest);
  }

  lemma LastOfPipe(s: string, r: Tree, rest: string)
    requires Gives(ParseExec(s), r, rest) && Stop(rest)
    ensures Gives(ParsePipe(s), r, rest)
  {
    hide ParseExec;
  }

  lemma PipeOfTwo(s: string, l: Tree, r: Tree, second: string, rest: string)
    requires Gives(ParseExec(s), l, "|" + second) && Gives(ParsePipe(second), r, rest) && Solid(second)
    ensures Gives(ParsePipe(s), TPipe(l, r), rest)
  {
    SymbolToken('|', second);
    assert Skip("|" + second) == "|" + second;
    hide ParseExec, GetToken, Skip;
  }

  lemma LineOfPipe(s: string, t: Tree, rest: string)
    requires Gives(ParsePipe(s), t, rest) && Stop(rest)
    ensures Gives(ParseLine(s), t, rest)
  {
    hide ParsePipe;
  }

  lemma ListLine(l: Tree, r: Tree, rest: string)
    requires SolidPrint(l) && SolidPrint(r) && Stop(rest)
    requires var second := "(" + (Print(r) + (")" + rest));
             Gives(ParseLine(Print(l) + (")" + (";" + second))), l, ")" + (";" + second))
    requires Gives(ParseLine(Print(r) + (")" + rest)), r, ")" + rest)
    ensures var second := "(" + (Print(r) + (")" + rest));
            Gives(ParseLine("(" + (Print(l) + (")" + (";" + second)))), TList(l, r), rest)
  {
    var second := "(" + (Print(r) + (")" + rest));
    var s := "(" + (Print(l) + (")" + (";" + second)));
    hide ParseLine;
    PlainBlock(r, rest);
    WholeLine(second, r, rest);
    PlainBlock(l, ";" + second);
    PipeOfBlock(s, l, second);
    ListOfPipe(s, l, r, second, rest);
  }

  /** A block in front of a semicolon is a whole pipeline. */
  lemma PipeOfBlock(s: string, l: Tree, second: string)
    requires Gives(ParseExec(s), l, ";" + second)
    ensures Gives(ParsePipe(s), l, ";" + second)
  {
    hide ParseExec;
    assert Skip(";" + second) == ";" + second;
  }

  lemma ListOfPipe(s: string, l: Tree, r: Tree, second: string, rest: string)
    requires Gives(ParsePipe(s), l, ";" + second) && Gives(ParseLine(second), r, rest) && Solid(second)
    ensures Gives(ParseLine(s), TList(l, r), rest)
  {
    SymbolToken(';', second);
    assert Skip(";" + second) == ";" + second;
    hide Skip, GetToken, ParsePipe;
    var c := ParsePipe(s).value;
    assert Backs(c, ";" + second) == (c, ";" + second);
  }

  lemma BackLine(d: Tree, rest: string)
    requires SolidPrint(d) && Stop(rest) && Gives(ParseLine(Print(d) + (")" + ("&" + rest))), d, ")" + ("&" + rest))
    ensures Gives(ParseLine("(" + (Print(d) + (")" + ("&" + rest)))), TBack(d), rest)
  {
    PlainBlock(d, "&" + rest);
    SymbolToken('&', rest);
    var s := "(" + (Print(d) + (")" + ("&" + rest)));
    hide ParseExec, GetToken;
    assert Gives(ParsePipe(s), d, "&" + rest);
    hide ParsePipe;
    var c := ParsePipe(s).value;
    assert Backs(Back(c), rest) == (Back(c), rest);
  }

  // ---- The round trip ----

  /** The shapes in which the lemmas above see printed commands. */
  lemma PrintedRedir(d: Tree, file: string, mode: Mode, rest: string)
    ensures Print(TRedir(d, file, mode)) + rest == "(" + (Print(d) + (")" + (Arrow(mode) + (file + rest))))
  {
  }

  lemma PrintedPipe(l: Tree, r: Tree, rest: string)
    ensures Print(TPipe(l, r)) + rest == "(" + (Print(l) + (")" + ("|" + ("(" + (Print(r) + (")" + rest))))))
  {
  }

  lemma PrintedList(l: Tree, r: Tree, rest: string)
    ensures Print(TList(l, r)) + rest == "(" + (Print(l) + (")" + (";" + ("(" + (Print(r) + (")" + rest))))))
  {
  }

  lemma PrintedExec(args: seq<string>)
    ensures Print(TExec(args)) == Words(args)
  {
  }

  lemma PrintedBack(d: Tree, rest: string)
    ensures Print(TBack(d)) + rest == "(" + (Print(d) + (")" + ("&" + rest)))
  {
  }

  lemma {:induction false} LineOf(t: Tree, rest: string)
    requires Printable(t) && Stop(rest)
    ensures Gives(ParseLine(Print(t) + rest), t, rest)
    decreases t
  {
    hide ParseLine, ParseExec, ParsePipe, SolidPrint, Words, Gives, GoodWord, Print, Arrow;
    match t
    case TExec(args) =>
      ExecLine(args, rest);
      PrintedExec(args);
    case TRedir(d, file, mode) =>
      LineOf(d, ")" + (Arrow(mode) + (file + rest)));
      PrintSolid(d);
      RedirLine(d, file, mode, rest);
      PrintedRedir(d, file, mode, rest);
    case TPipe(l, r) =>
      var second := "(" + (Print(r) + (")" + rest));
      LineOf(l, ")" + ("|" + second));
      LineOf(r, ")" + rest);
      PrintSolid(l);
      PrintSolid(r);
      PipeLine(l, r, rest);
      PrintedPipe(l, r, rest);
    case TList(l, r) =>
      var second := "(" + (Print(r) + (")" + rest));
      LineOf(l, ")" + (";" + second));
      LineOf(r, ")" + rest);
      PrintSolid(l);
      PrintSolid(r);
      ListLine(l, r, rest);
      PrintedList(l, r, rest);
    case TBack(d) =>
      LineOf(d, ")" + ("&" + rest));
      PrintSolid(d);
      BackLine(d, rest);
      PrintedBack(d, rest);
  }

  lemma ExecLine(args: seq<string>, rest: string)
    requires Printable(TExec(args)) && Stop(rest)
    ensures Gives(ParseLine(Words(args) + rest), TExec(args), rest)
  {
    var s := Words(args) + rest;
    SolidWords(args, rest);
    NoRedirs(s);
    WordsParse([], args, rest);
    assert Texts([]) + args == args;
    hide ExecLoop, Redirs;
    assert Gives(ParseExec(s), TExec(args), rest);
    WholeLine(s, TExec(args), rest);
  }

  /** Parsing what was printed gives the command back, for every command with words that can be written
      and at most nine arguments to each program. */
  lemma RoundTrip(t: Tree)
    requires Printable(t)
    ensures ParseCmd(Print(t)).Ok? && Plain(ParseCmd(Print(t)).value) == t
  {
    LineOf(t, "");
    assert Print(t) + "" == Print(t);
  }
}
