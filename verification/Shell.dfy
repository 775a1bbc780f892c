/** The shell's parser over its input buffer, and the NULs it writes into it (user/sh.c). */
module Shell {
  import opened ShellParser

  // ---- Where words are ----

  ghost predicate Suffix(input: string, s: string) {
    |s| <= |input| && input[|input| - |s|..] == s
  }

  /** The word stands where it says, and something that is no part of a word follows it. */
  ghost predicate WordOk(input: string, w: Word) {
    && w.to <= w.from <= |input| && input[|input| - w.from..|input| - w.to] == w.text && GoodWord(w.text)
    && (w.to > 0 ==> !IsWord(input[|input| - w.to]))
  }

  /** All words of a command: arguments and file names. */
  ghost function WordsOf(c: Cmd): set<Word> {
    match c
    case Exec(args) => set w | w in args
    case Redir(d, r) => WordsOf(d) + {r.file}
    case Pipe(l, r) => WordsOf(l) + WordsOf(r)
    case List(l, r) => WordsOf(l) + WordsOf(r)
    case Back(d) => WordsOf(d)
  }

  ghost predicate CmdOk(input: string, c: Cmd) { forall w :: w in WordsOf(c) ==> WordOk(input, w) }

  ghost predicate RedirsOk(input: string, rs: seq<Redirection>) {
    forall i :: 0 <= i < |rs| ==> WordOk(input, rs[i].file)
  }

  ghost predicate ResultOk(input: string, r: Result<Cmd>) {
    r.Ok? ==> CmdOk(input, r.value) && Suffix(input, r.rest)
  }

  lemma Later(input: string, s: string, k: nat)
    requires Suffix(input, s) && k <= |s|
    ensures Suffix(input, s[k..])
  {
  }

  lemma {:induction false} SkipLater(input: string, s: string)
    requires Suffix(input, s)
    ensures Suffix(input, Skip(s))
    decreases |s|
  {
    if s != "" && IsSpace(s[0]) {
      Later(input, s, 1);
      SkipLater(input, s[1..]);
    }
  }

  lemma TokenOk(input: string, s: string)
    requires Suffix(input, s)
    ensures Suffix(input, GetToken(s).1)
    ensures GetToken(s).0.AWord? ==> WordOk(input, GetToken(s).0.w)
  {
    SkipLater(input, s);
    var t := Skip(s);
    if t == "" {
    } else if t[0] == '>' && |t| > 1 && t[1] == '>' {
      Later(input, t, 2);
      SkipLater(input, t[2..]);
    } else if IsSymbol(t[0]) {
      Later(input, t, 1);
      SkipLater(input, t[1..]);
    } else {
      var k := WordLen(t);
      Later(input, t, k);
      SkipLater(input, t[k..]);
      assert IsWord(t[0]);
      assert t[..k] == input[|input| - |t|..|input| - |t| + k];
    }
  }

  lemma {:induction false} RedirsAreOk(input: string, s: string)
    requires Suffix(input, s)
    ensures Redirs(s).Ok? ==> RedirsOk(input, Redirs(s).value) && Suffix(input, Redirs(s).rest)
    decreases |s|
  {
    hide GetToken, WordOk, Suffix;
    SkipLater(input, s);
    if Peek(s, "<>") {
      TokenOk(input, s);
      TokenOk(input, GetToken(s).1);
      RedirsAreOk(input, GetToken(GetToken(s).1).1);
    }
  }

  lemma {:induction false} WrapOk(input: string, c: Cmd, rs: seq<Redirection>)
    requires CmdOk(input, c) && RedirsOk(input, rs)
    ensures CmdOk(input, Wrap(c, rs))
    decreases |rs|
  {
    hide WordOk;
    if rs != [] { WrapOk(input, c, rs[..|rs| - 1]); }
  }

  lemma {:induction false} LoopOk(input: string, args: seq<Word>, rs: seq<Redirection>, s: string)
    requires Suffix(input, s) && CmdOk(input, Exec(args)) && RedirsOk(input, rs)
    ensures ResultOk(input, ExecLoop(args, rs, s))
    decreases |s|
  {
    hide GetToken, WordOk, Suffix, Redirs;
    SkipLater(input, s);
    WrapOk(input, Exec(args), rs);
    TokenOk(input, s);
    var (tok, s1) := GetToken(s);
    if !Peek(s, "|)&;") && tok.AWord? && |args| + 1 < MAXARGS {
      RedirsAreOk(input, s1);
      if Redirs(s1).Ok? {
        assert CmdOk(input, Exec(args + [tok.w])) by {
          assert forall w :: w in WordsOf(Exec(args + [tok.w])) ==> w in WordsOf(Exec(args)) || w == tok.w;
        }
        LoopOk(input, args + [tok.w], rs + Redirs(s1).value, Redirs(s1).rest);
      }
    }
  }

  lemma {:induction false} ExecOk(input: string, s: string)
    requires Suffix(input, s)
    ensures ResultOk(input, ParseExec(s))
    decreases |s|, 1
  {
    hide ParseBlock, Redirs, ExecLoop, WordOk, Suffix;
    if Peek(s, "(") {
      BlockOk(input, s);
    } else {
      RedirsAreOk(input, s);
      if Redirs(s).Ok? {
        assert CmdOk(input, Exec([]));
        LoopOk(input, [], Redirs(s).value, Redirs(s).rest);
      }
    }
  }

  lemma {:induction false} BlockOk(input: string, s: string)
    requires Suffix(input, s)
    ensures ResultOk(input, ParseBlock(s))
    decreases |s|, 0
  {
    hide ParseLine, Redirs, WordOk, Suffix, CmdOk, RedirsOk;
    if Peek(s, "(") {
      TokenOk(input, s);
      LineOk(input, GetToken(s).1);
      var r := ParseLine(GetToken(s).1);
      if r.Ok? {
        TokenOk(input, r.rest);
        RedirsAreOk(input, GetToken(r.rest).1);
        var q := Redirs(GetToken(r.rest).1);
        if q.Ok? { WrapOk(input, r.value, q.value); }
      }
    }
  }

  lemma {:induction false} PipeOk(input: string, s: string)
    requires Suffix(input, s)
    ensures ResultOk(input, ParsePipe(s))
    decreases |s|, 2
  {
    hide ParseExec, WordOk, Suffix;
    ExecOk(input, s);
    var r := ParseExec(s);
    if r.Ok? {
      SkipLater(input, r.rest);
      if Peek(r.rest, "|") {
        TokenOk(input, r.rest);
        PipeOk(input, GetToken(r.rest).1);
      }
    }
  }

  lemma {:induction false} BacksOk(input: string, c: Cmd, s: string)
    requires Suffix(input, s) && CmdOk(input, c)
    ensures CmdOk(input, Backs(c, s).0) && Suffix(input, Backs(c, s).1)
    decreases |s|
  {
    hide WordOk, Suffix;
    SkipLater(input, s);
    if Peek(s, "&") {
      TokenOk(input, s);
      BacksOk(input, Back(c), GetToken(s).1);
    }
  }

  lemma {:induction false} LineOk(input: string, s: string)
    requires Suffix(input, s)
    ensures ResultOk(input, ParseLine(s))
    decreases |s|, 3
  {
    hide ParsePipe, WordOk, Suffix;
    PipeOk(input, s);
    var r := ParsePipe(s);
    if r.Ok? {
      BacksOk(input, r.value, r.rest);
      var (d, s2) := Backs(r.value, r.rest);
      SkipLater(input, s2);
      if Peek(s2, ";") {
        TokenOk(input, s2);
        LineOk(input, GetToken(s2).1);
      }
    }
  }

  // ---- The code ----

  /** The input line in buf[..es], with *ps as ps. */
  class Parser {
    const buf: array<char>
    const es: nat
    var ps: nat

    ghost predicate Valid()
      reads this
    {
      ps <= es < buf.Length
    }

    ghost function Left(): string
      requires Valid()
      reads this, buf
    {
      buf[ps..es]
    }

    constructor (buf: array<char>, es: nat)
      requires es < buf.Length
      ensures Valid() && this.buf == buf && this.es == es && ps == 0
    {
      this.buf, this.es, ps := buf, es, 0;
    }

    method SkipSpace()
      requires Valid()
      modifies `ps
      ensures Valid() && Left() == Skip(old(Left()))
    {
      while ps < es && IsSpace(buf[ps])
        invariant Valid() && Skip(Left()) == Skip(old(Left()))
        decreases es - ps
      {
        assert Left()[1..] == buf[ps + 1..es];
        ps := ps + 1;
      }
      assert ps < es ==> Left()[0] == buf[ps];
    }

    method SkipWord()
      requires Valid()
      modifies `ps
      ensures Valid() && ps == old(ps) + WordLen(old(Left()))
    {
      while ps < es && IsWord(buf[ps])
        invariant Valid() && old(ps) <= ps && WordLen(old(Left())) == ps - old(ps) + WordLen(Left())
        decreases es - ps
      {
        assert Left()[1..] == buf[ps + 1..es];
        ps := ps + 1;
      }
      assert ps < es ==> Left()[0] == buf[ps];
    }

    /** gettoken. */
    method GetTok() returns (tok: Token)
      requires Valid()
      modifies `ps
      ensures Valid() && (tok, Left()) == GetToken(old(Left()))
    {
      hide Skip, WordLen;
      SkipSpace();
      ghost var s := Left();
      var q := ps;
      if ps == es {
        return End;
      }
      assert s[0] == buf[ps];
      if buf[ps] == '>' && ps + 1 < es && buf[ps + 1] == '>' {
        assert s[1] == buf[ps + 1];
        tok := Double;
        ps := ps + 2;
        assert Left() == s[2..];
      } else if IsSymbol(buf[ps]) {
        assert |s| > 1 ==> s[1] == buf[ps + 1];
        tok := Symbol(buf[ps]);
        ps := ps + 1;
        assert Left() == s[1..];
      } else {
        SkipWord();
        assert buf[q..ps] == s[..ps - q] && Left() == s[ps - q..];
        tok := AWord(Word(buf[q..ps], es - q, es - ps));
      }
      SkipSpace();
    }

    /** peek. */
    method Peeks(toks: string) returns (r: bool)
      requires Valid()
      modifies `ps
      ensures Valid() && Left() == Skip(old(Left())) && r == Peek(old(Left()), toks)
    {
      SkipSpace();
      assert ps < es ==> Left()[0] == buf[ps];
      r := ps < es && buf[ps] in toks;
    }

    /** parseredirs. */
    method ParseRedirs() returns (r: Result<seq<Redirection>>)
      requires Valid()
      modifies `ps
      ensures Valid() && r == Redirs(old(Left())) && (r.Ok? ==> r.rest == Left())
    {
      hide GetToken, Skip;
      ghost var s := Left();
      var rs := [];
      var more := Peeks("<>");
      assert Redirs(s).Ok? ==> rs + Redirs(s).value == Redirs(s).value;
      while more
        invariant Valid() && more == Peek(s, "<>") && Left() == Skip(s)
        invariant Redirs(old(Left())) == After(rs, Redirs(s))
        decreases |s|
      {
        SkipTwice(s);
        var tok := GetTok();
        var file := GetTok();
        if !file.AWord? {
          return Err;
        }
        var mode := if tok == Double then Append else if tok == Symbol('<') then In else Out;
        MoreRedirs(rs, s);
        s := Left();
        rs := rs + [Redirection(file.w, mode)];
        more := Peeks("<>");
      }
      assert rs + [] == rs;
      r := Ok(rs, buf[ps..es]);
    }

    /** parseexec. */
    method ParseSimple() returns (r: Result<Cmd>)
      requires Valid()
      modifies `ps
      ensures Valid() && r == ParseExec(old(Left())) && (r.Ok? ==> r.rest == Left())
      decreases es - ps, 1
    {
      hide GetToken, Redirs, ExecLoop, ParseBlock, Skip;
      SkipTwice(Left());
      SameStart(Left());
      var block := Peeks("(");
      if block {
        r := ParseGroup();
        return;
      }
      var redirs := ParseRedirs();
      if redirs.Err? {
        return Err;
      }
      r := ParseArgs(redirs.value);
    }

    /** parseexec's loop. */
    method ParseArgs(first: seq<Redirection>) returns (r: Result<Cmd>)
      requires Valid()
      modifies `ps
      ensures Valid() && r == ExecLoop([], first, old(Left())) && (r.Ok? ==> r.rest == Left())
    {
      hide GetToken, Redirs, Skip, Wrap;
      var args: seq<Word>, rs := [], first;
      ghost var s := Left();
      var stop := Peeks("|)&;");
      while !stop
        invariant Valid() && stop == Peek(s, "|)&;") && Left() == Skip(s) && |args| < MAXARGS
        invariant ExecLoop([], first, old(Left())) == ExecLoop(args, rs, s)
        decreases |s|
      {
        SkipTwice(s);
        var tok := GetTok();
        if tok == End {
          break;
        }
        if !tok.AWord? || |args| + 1 >= MAXARGS {
          return Err;
        }
        var more := ParseRedirs();
        if more.Err? {
          return Err;
        }
        args, rs := args + [tok.w], rs + more.value;
        s := Left();
        stop := Peeks("|)&;");
      }
      r := Ok(Wrap(Exec(args), rs), buf[ps..es]);
    }

    /** parseblock. */
    method ParseGroup() returns (r: Result<Cmd>)
      requires Valid()
      modifies `ps
      ensures Valid() && r == ParseBlock(old(Left())) && (r.Ok? ==> r.rest == Left())
      decreases es - ps, 0
    {
      hide GetToken, Redirs, ParseLine, Skip, Wrap;
      ghost var s := Left();
      SkipTwice(s);
      var open := Peeks("(");
      if !open {
        return Err;
      }
      var tok := GetTok();
      r := ParseWhole();
      if r.Err? {
        return;
      }
      var c := r.value;
      SkipTwice(Left());
      var close := Peeks(")");
      if !close {
        return Err;
      }
      tok := GetTok();
      var redirs := ParseRedirs();
      if redirs.Err? {
        return Err;
      }
      r := Ok(Wrap(c, redirs.value), buf[ps..es]);
    }

    /** parsepipe. */
    method ParsePipeline() returns (r: Result<Cmd>)
      requires Valid()
      modifies `ps
      ensures Valid() && r == ParsePipe(old(Left())) && (r.Ok? ==> r.rest == Left())
      decreases es - ps, 2
    {
      hide GetToken, ParseExec, Skip;
      r := ParseSimple();
      if r.Err? {
        return;
      }
      var c := r.value;
      SkipTwice(Left());
      var bar := Peeks("|");
      if bar {
        var tok := GetTok();
        r := ParsePipeline();
        if r.Ok? { r := Ok(Pipe(c, r.value), r.rest); }
      } else {
        r := Ok(c, buf[ps..es]);
      }
    }

    /** parseline. */
    method ParseWhole() returns (r: Result<Cmd>)
      requires Valid()
      modifies `ps
      ensures Valid() && r == ParseLine(old(Left())) && (r.Ok? ==> r.rest == Left())
      decreases es - ps, 3
    {
      hide GetToken, ParsePipe, Skip;
      r := ParsePipeline();
      if r.Err? {
        return;
      }
      var c := r.value;
      ghost var s := Left();
      ghost var c0, s0 := c, s;
      var amp := Peeks("&");
      while amp
        invariant Valid() && amp == Peek(s, "&") && Left() == Skip(s) && |s| <= |s0| && ps <= es
        invariant Backs(c0, s0) == Backs(c, s)
        decreases |s|
      {
        SkipTwice(s);
        var tok := GetTok();
        c := Back(c);
        s := Left();
        amp := Peeks("&");
      }
      assert Backs(c0, s0) == (c, Left());
      SkipTwice(s);
      SkipTwice(Left());
      var semi := Peeks(";");
      if semi {
        var tok := GetTok();
        r := ParseWhole();
        if r.Ok? { r := Ok(List(c, r.value), r.rest); }
      } else {
        r := Ok(c, buf[ps..es]);
      }
    }

    method PutNul(w: Word, ghost input: string)
      requires Valid() && es == |input| && WordOk(input, w) && Kept(input, buf[..])
      modifies buf
      ensures Kept(input, buf[..]) && buf[es - w.to] == '\0'
      ensures forall i :: 0 <= i < buf.Length && old(buf[i]) == '\0' ==> buf[i] == '\0'
    {
      buf[es - w.to] := '\0';
    }

    /** nulterminate. */
    method NulTerminate(c: Cmd, ghost input: string)
      requires Valid() && es == |input| && CmdOk(input, c) && Kept(input, buf[..])
      modifies buf
      ensures Kept(input, buf[..])
      ensures forall w :: w in WordsOf(c) ==> w.to <= es && buf[es - w.to] == '\0'
      ensures forall i :: 0 <= i < buf.Length && old(buf[i]) == '\0' ==> buf[i] == '\0'
      decreases c
    {
      hide WordOk, Kept;
      AllWithin(input, c);
      match c
      case Exec(args) =>
        var i := 0;
        while i < |args|
          invariant 0 <= i <= |args| && Kept(input, buf[..])
          invariant forall j :: 0 <= j < i ==> buf[es - args[j].to] == '\0'
          invariant forall j :: 0 <= j < buf.Length && old(buf[j]) == '\0' ==> buf[j] == '\0'
        {
          assert args[i] in WordsOf(c);
          PutNul(args[i], input);
          i := i + 1;
        }
      case Redir(d, r) =>
        NulTerminate(d, input);
        PutNul(r.file, input);
      case Pipe(l, r) =>
        NulTerminate(l, input);
        NulTerminate(r, input);
      case List(l, r) =>
        NulTerminate(l, input);
        NulTerminate(r, input);
      case Back(d) =>
        NulTerminate(d, input);
    }

    /** parsecmd: in the buffer every argument and file name of the command has become a NUL-terminated
        string equal to its token. */
    method ParseCommand() returns (r: Result<Cmd>)
      requires Valid() && ps == 0 && '\0' !in buf[..es]
      modifies `ps, buf
      ensures r == ParseCmd(old(buf[..es]))
      ensures r.Ok? ==> forall w :: w in WordsOf(r.value) ==> Terminated(buf[..], es, w)
    {
      hide ParseLine, Skip, WordOk, Kept, Terminated;
      ghost var input := buf[..es];
      assert Left() == input;
      WholeInput(input, buf[..]);
      LineOk(input, input);
      r := ParseWhole();
      if r.Err? {
        return;
      }
      SkipSpace();
      if ps != es {
        return Err;
      }
      NulTerminate(r.value, input);
      forall w | w in WordsOf(r.value)
        ensures Terminated(buf[..], es, w)
      {
        WordKept(input, buf[..], w);
      }
      r := Ok(r.value, "");
    }
  }

  lemma WholeInput(input: string, now: seq<char>)
    requires |input| < |now| && now[..|input|] == input
    ensures Suffix(input, input) && Kept(input, now)
  {
    assert input[0..] == input;
    assert forall i :: 0 <= i < |input| ==> now[i] == now[..|input|][i];
  }

  lemma AllWithin(input: string, c: Cmd)
    requires CmdOk(input, c)
    ensures forall w :: w in WordsOf(c) ==> w.to <= |input|
  {
  }

  /** NULs have been written only where no word of the input is. */
  ghost predicate Kept(input: string, now: seq<char>) {
    |input| < |now| && forall i :: 0 <= i < |input| && IsWord(input[i]) ==> now[i] == input[i]
  }

  /** In the buffer the word is a NUL-terminated string. */
  ghost predicate Terminated(now: seq<char>, es: nat, w: Word) {
    w.to <= w.from <= es < |now| && now[es - w.from..es - w.to] == w.text && now[es - w.to] == '\0' && '\0' !in w.text
  }

  lemma WordKept(input: string, now: seq<char>, w: Word)
    requires Kept(input, now) && WordOk(input, w) && now[|input| - w.to] == '\0' && '\0' !in input
    ensures Terminated(now, |input|, w)
  {
    var a := |input| - w.from;
    assert forall i :: 0 <= i < |w.text| ==> w.text[i] == input[a + i] && IsWord(w.text[i]);
    assert now[a..|input| - w.to] == w.text;
  }

  lemma SameStart(s: string)
    ensures Redirs(Skip(s)) == Redirs(s) && ParseBlock(Skip(s)) == ParseBlock(s)
  {
    SkipTwice(s);
    hide GetToken, Skip;
  }

  ghost function After(rs: seq<Redirection>, r: Result<seq<Redirection>>): Result<seq<Redirection>> {
    match r
    case Err => Err
    case Ok(more, rest) => Ok(rs + more, rest)
  }

  lemma {:induction false} SkipTwice(s: string)
    ensures Skip(Skip(s)) == Skip(s) && GetToken(Skip(s)) == GetToken(s)
    decreases |s|
  {
    if s != "" && IsSpace(s[0]) { SkipTwice(s[1..]); }
  }

  lemma MoreRedirs(rs: seq<Redirection>, s: string)
    requires Peek(s, "<>") && GetToken(GetToken(s).1).0.AWord?
    ensures var (tok, s1) := GetToken(s); var (file, s2) := GetToken(s1);
            var mode := if tok == Double then Append else if tok == Symbol('<') then In else Out;
            After(rs, Redirs(s)) == After(rs + [Redirection(file.w, mode)], Redirs(s2))
  {
    hide GetToken, Peek, Skip;
    var (tok, s1) := GetToken(s);
    var (file, s2) := GetToken(s1);
    var mode := if tok == Double then Append else if tok == Symbol('<') then In else Out;
    var r := Redirs(s2);
    assert Redirs(s) == match r case Err => Err case Ok(more, rest) => Ok([Redirection(file.w, mode)] + more, rest);
    hide Redirs;
    if r.Ok? { InOrder(rs, Redirection(file.w, mode), r.value); }
  }

  lemma InOrder(a: seq<Redirection>, x: Redirection, b: seq<Redirection>)
    ensures a + ([x] + b) == a + [x] + b
  {
  }
}
