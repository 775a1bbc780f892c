/** The shell's parser (user/sh.c).  Text is without its terminating NUL; what is left of it plays the part
    of *ps. */
module ShellParser {

  const MAXARGS := 10

  predicate IsSpace(c: char) { c == ' ' || c == '\t' || c == '\r' || c == '\n' || c == '\U{0B}' }

  predicate IsSymbol(c: char) { c == '<' || c == '|' || c == '>' || c == '&' || c == ';' || c == '(' || c == ')' }

  predicate IsWord(c: char) { !IsSpace(c) && !IsSymbol(c) }

  /** A word of the text, and how much of the text was left at its start and at its end. */
  datatype Word = Word(text: string, from: nat, to: nat)

  datatype Mode = In | Out | Append

  datatype Redirection = Redirection(file: Word, mode: Mode)

  datatype Cmd =
    | Exec(args: seq<Word>)
    | Redir(cmd: Cmd, r: Redirection)
    | Pipe(left: Cmd, right: Cmd)
    | List(left: Cmd, right: Cmd)
    | Back(cmd: Cmd)

  /** Err is a panic. */
  datatype Result<+T> = Ok(value: T, rest: string) | Err

  // ---- Tokens ----

  function Skip(s: string): (r: string)
    ensures |r| <= |s| && (r != "" ==> !IsSpace(r[0]))
  {
    if s != "" && IsSpace(s[0]) then Skip(s[1..]) else s
  }

  function WordLen(s: string): (k: nat)
    ensures k <= |s| && (forall i :: 0 <= i < k ==> IsWord(s[i])) && (k < |s| ==> !IsWord(s[k]))
  {
    if s != "" && IsWord(s[0]) then 1 + WordLen(s[1..]) else 0
  }

  datatype Token = End | Symbol(c: char) | Double | AWord(w: Word)

  /** gettoken: the token and what is left after it and the white space behind it. */
  function GetToken(s0: string): (r: (Token, string))
    ensures |r.1| <= |s0| && (r.0 != End ==> |r.1| < |s0|)
    ensures r.0 == End <==> Skip(s0) == ""
  {
    var s := Skip(s0);
    if s == "" then (End, "")
    else if s[0] == '>' && |s| > 1 && s[1] == '>' then (Double, Skip(s[2..]))
    else if IsSymbol(s[0]) then (Symbol(s[0]), Skip(s[1..]))
    else (AWord(Word(s[..WordLen(s)], |s|, |s| - WordLen(s))), Skip(s[WordLen(s)..]))
  }

  /** peek. */
  predicate Peek(s: string, toks: string) { Skip(s) != "" && Skip(s)[0] in toks }

  // ---- The parser ----

  /** parseredirs: the redirections in front of s. */
  function Redirs(s: string): (r: Result<seq<Redirection>>)
    ensures r.Ok? ==> |r.rest| <= |s|
    decreases |s|
  {
    if !Peek(s, "<>") then Ok([], Skip(s)) else
    var (tok, s1) := GetToken(s);
    var (file, s2) := GetToken(s1);
    if !file.AWord? then Err else
    var mode := if tok == Double then Append else if tok == Symbol('<') then In else Out;
    match Redirs(s2)
    case Err => Err
    case Ok(more, rest) => Ok([Redirection(file.w, mode)] + more, rest)
  }

  /** The first redirection ends up innermost. */
  function Wrap(c: Cmd, rs: seq<Redirection>): Cmd
    decreases |rs|
  {
    if rs == [] then c else Redir(Wrap(c, rs[..|rs| - 1]), rs[|rs| - 1])
  }

  /** parseexec's loop: words and redirections up to a symbol that ends the command. */
  function ExecLoop(args: seq<Word>, rs: seq<Redirection>, s: string): (r: Result<Cmd>)
    ensures r.Ok? ==> |r.rest| <= |s|
    decreases |s|
  {
    if Peek(s, "|)&;") then Ok(Wrap(Exec(args), rs), Skip(s)) else
    var (tok, s1) := GetToken(s);
    match tok
    case End => Ok(Wrap(Exec(args), rs), s1)
    case AWord(w) =>
      if |args| + 1 >= MAXARGS then Err else
      (match Redirs(s1)
       case Err => Err
       case Ok(more, rest) => ExecLoop(args + [w], rs + more, rest))
    case _ => Err
  }

  function ParseExec(s: string): (r: Result<Cmd>)
    ensures r.Ok? ==> |r.rest| <= |s|
    decreases |s|, 1
  {
    if Peek(s, "(") then ParseBlock(s) else
    match Redirs(s)
    case Err => Err
    case Ok(rs, rest) => ExecLoop([], rs, rest)
  }

  function ParseBlock(s: string): (r: Result<Cmd>)
    ensures r.Ok? ==> |r.rest| < |s|
    decreases |s|, 0
  {
    if !Peek(s, "(") then Err else
    match ParseLine(GetToken(s).1)
    case Err => Err
    case Ok(c, s1) =>
      if !Peek(s1, ")") then Err else
      (match Redirs(GetToken(s1).1)
       case Err => Err
       case Ok(rs, rest) => Ok(Wrap(c, rs), rest))
  }

  function ParsePipe(s: string): (r: Result<Cmd>)
    ensures r.Ok? ==> |r.rest| <= |s|
    decreases |s|, 2
  {
    match ParseExec(s)
    case Err => Err
    case Ok(c, s1) =>
      if !Peek(s1, "|") then Ok(c, Skip(s1)) else
      (match ParsePipe(GetToken(s1).1)
       case Err => Err
       case Ok(d, rest) => Ok(Pipe(c, d), rest))
  }

  /** The run of & behind a pipeline. */
  function Backs(c: Cmd, s: string): (r: (Cmd, string))
    ensures |r.1| <= |s|
    decreases |s|
  {
    if !Peek(s, "&") then (c, Skip(s)) else Backs(Back(c), GetToken(s).1)
  }

  function ParseLine(s: string): (r: Result<Cmd>)
    ensures r.Ok? ==> |r.rest| <= |s|
    decreases |s|, 3
  {
    match ParsePipe(s)
    case Err => Err
    case Ok(c, s1) =>
      var (d, s2) := Backs(c, s1);
      if !Peek(s2, ";") then Ok(d, Skip(s2)) else
      (match ParseLine(GetToken(s2).1)
       case Err => Err
       case Ok(e, rest) => Ok(List(d, e), rest))
  }

  /** parsecmd, but for nulterminate. */
  function ParseCmd(s: string): (r: Result<Cmd>)
    ensures r.Ok? ==> r.rest == ""
  {
    match ParseLine(s)
    case Err => Err
    case Ok(c, rest) => if Skip(rest) == "" then Ok(c, "") else Err
  }

  // ---- The printer ----

  /** A command without positions. */
  datatype Tree =
    | TExec(args: seq<string>)
    | TRedir(cmd: Tree, file: string, mode: Mode)
    | TPipe(left: Tree, right: Tree)
    | TList(left: Tree, right: Tree)
    | TBack(cmd: Tree)

  function Texts(ws: seq<Word>): (r: seq<string>)
    ensures |r| == |ws| && forall i :: 0 <= i < |ws| ==> r[i] == ws[i].text
  {
    seq(|ws|, i requires 0 <= i < |ws| => ws[i].text)
  }

  function Plain(c: Cmd): Tree {
    match c
    case Exec(args) => TExec(Texts(args))
    case Redir(d, r) => TRedir(Plain(d), r.file.text, r.mode)
    case Pipe(l, r) => TPipe(Plain(l), Plain(r))
    case List(l, r) => TList(Plain(l), Plain(r))
    case Back(d) => TBack(Plain(d))
  }

  predicate GoodWord(w: string) { w != "" && forall i :: 0 <= i < |w| ==> IsWord(w[i]) }

  /** Words that can be written, and no more of them than fit. */
  predicate Printable(t: Tree) {
    match t
    case TExec(args) => |args| < MAXARGS && forall i :: 0 <= i < |args| ==> GoodWord(args[i])
    case TRedir(d, file, _) => GoodWord(file) && Printable(d)
    case TPipe(l, r) => Printable(l) && Printable(r)
    case TList(l, r) => Printable(l) && Printable(r)
    case TBack(d) => Printable(d)
  }

  function Words(args: seq<string>): string {
    if args == [] then "" else args[0] + " " + Words(args[1..])
  }

  function Arrow(mode: Mode): string {
    match mode
    case In => "<"
    case Out => ">"
    case Append => ">>"
  }

  /** Fully parenthesised. */
  function Print(t: Tree): string {
    match t
    case TExec(args) => Words(args)
    case TRedir(d, file, mode) => "(" + Print(d) + ")" + Arrow(mode) + file
    case TPipe(l, r) => "(" + Print(l) + ")|(" + Print(r) + ")"
    case TList(l, r) => "(" + Print(l) + ");(" + Print(r) + ")"
    case TBack(d) => "(" + Print(d) + ")&"
  }
}
