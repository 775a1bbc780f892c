/** The grammar of the shell, and that its parser accepts exactly the sentences of it and gives each its
    meaning (user/sh.c). */
module ShellGrammar {
  import opened ShellParser
  import Shell
  import ShellRoundTrip

  // ---- The grammar ----

  /** A token without its place. */
  datatype Tok = TextTok(text: string) | SymTok(c: char) | DoubleTok

  function Bare(t: Token): Tok
    requires t != End
  {
    match t
    case Symbol(c) => SymTok(c)
    case Double => DoubleTok
    case AWord(w) => TextTok(w.text)
  }

  /** All tokens of a text. */
  function Toks(s: string): seq<Tok>
    decreases |s|
  {
    var (t, rest) := GetToken(s);
    if t == End then [] else [Bare(t)] + Toks(rest)
  }

  /** Words and redirections stand in any order. */
  datatype Item = Arg(text: string) | Redirect(mode: Mode, file: string)

  datatype Atom = Simple(items: seq<Item>) | Group(line: Line, redirects: seq<Item>)

  datatype Chain = Last(atom: Atom) | Bar(atom: Atom, more: Chain)

  /** A pipeline with some & behind it; then the end, or ; and another line. */
  datatype Line = Only(chain: Chain, amps: nat) | Semi(chain: Chain, amps: nat, more: Line)

  function ArrowTok(mode: Mode): Tok {
    match mode
    case In => SymTok('<')
    case Out => SymTok('>')
    case Append => DoubleTok
  }

  function ItemToks(item: Item): seq<Tok> {
    match item
    case Arg(text) => [TextTok(text)]
    case Redirect(mode, file) => [ArrowTok(mode), TextTok(file)]
  }

  function ItemsToks(items: seq<Item>): seq<Tok> {
    if items == [] then [] else ItemToks(items[0]) + ItemsToks(items[1..])
  }

  function Amps(n: nat): seq<Tok> { if n == 0 then [] else [SymTok('&')] + Amps(n - 1) }

  function AtomToks(a: Atom): seq<Tok> {
    match a
    case Simple(items) => ItemsToks(items)
    case Group(line, redirects) => [SymTok('(')] + LineToks(line) + [SymTok(')')] + ItemsToks(redirects)
  }

  function ChainToks(c: Chain): seq<Tok> {
    match c
    case Last(a) => AtomToks(a)
    case Bar(a, more) => AtomToks(a) + [SymTok('|')] + ChainToks(more)
  }

  function LineToks(l: Line): seq<Tok> {
    match l
    case Only(c, n) => ChainToks(c) + Amps(n)
    case Semi(c, n, more) => ChainToks(c) + Amps(n) + [SymTok(';')] + LineToks(more)
  }

  // ---- Its meaning ----

  function Args(items: seq<Item>): seq<string> {
    if items == [] then [] else (if items[0].Arg? then [items[0].text] else []) + Args(items[1..])
  }

  /** The command with the redirections among the items: the first of them innermost. */
  function Redirected(t: Tree, items: seq<Item>): Tree {
    if items == [] then t else
    var before := Redirected(t, items[..|items| - 1]);
    match items[|items| - 1]
    case Arg(_) => before
    case Redirect(mode, file) => TRedir(before, file, mode)
  }

  function Behind(t: Tree, n: nat): Tree { if n == 0 then t else TBack(Behind(t, n - 1)) }

  function AtomTree(a: Atom): Tree {
    match a
    case Simple(items) => Redirected(TExec(Args(items)), items)
    case Group(line, redirects) => Redirected(LineTree(line), redirects)
  }

  function ChainTree(c: Chain): Tree {
    match c
    case Last(a) => AtomTree(a)
    case Bar(a, more) => TPipe(AtomTree(a), ChainTree(more))
  }

  function LineTree(l: Line): Tree {
    match l
    case Only(c, n) => Behind(ChainTree(c), n)
    case Semi(c, n, more) => TList(Behind(ChainTree(c), n), LineTree(more))
  }

  predicate AllRedirects(items: seq<Item>) { forall i :: 0 <= i < |items| ==> items[i].Redirect? }

  /** At most nine arguments; nothing but redirections behind a group. */
  predicate AtomFits(a: Atom) {
    match a
    case Simple(items) => |Args(items)| < 10
    case Group(line, redirects) => LineFits(line) && AllRedirects(redirects)
  }

  predicate ChainFits(c: Chain) { AtomFits(c.atom) && (c.Bar? ==> ChainFits(c.more)) }

  predicate LineFits(l: Line) { ChainFits(l.chain) && (l.Semi? ==> LineFits(l.more)) }

  /** The text is a sentence of the grammar, and means t. */
  ghost predicate Means(s: string, l: Line, t: Tree) { LineFits(l) && LineToks(l) == Toks(s) && LineTree(l) == t }

  // ---- Tokens ----

  lemma Regroup<T>(a: seq<T>, b: seq<T>, c: seq<T>, d: seq<T>, e: seq<T>)
    ensures a + (b + c) == a + b + c
    ensures a + (b + (c + d)) == a + b + c + d
    ensures a + (b + (c + (d + e))) == a + b + c + d + e
  {
  }

  lemma SkipToks(s: string)
    ensures Toks(Skip(s)) == Toks(s)
  {
    Shell.SkipTwice(s);
  }

  /** peek looks at the next token. */
  lemma PeekTok(s: string, toks: string)
    requires forall i :: 0 <= i < |toks| ==> IsSymbol(toks[i])
    ensures Peek(s, toks) <==> Toks(s) != [] && FirstChar(Toks(s)[0]) in toks
  {
    hide Skip, WordLen;
    var t := Skip(s);
    if t != "" && IsWord(t[0]) {
      WordBegins(t);
    }
  }

  lemma WordBegins(t: string)
    requires t != "" && IsWord(t[0])
    ensures WordLen(t) > 0
  {
  }

  /** The character that shows what kind of token it is; a space for words. */
  function FirstChar(t: Tok): char {
    match t
    case TextTok(_) => ' '
    case SymTok(c) => c
    case DoubleTok => '>'
  }

  lemma TokStep(s: string)
    ensures var (t, rest) := GetToken(s);
            if t == End then Toks(s) == [] else Toks(s) != [] && Bare(t) == Toks(s)[0] && Toks(rest) == Toks(s)[1..]
  {
    hide GetToken;
  }

  lemma {:induction false} ItemsAdd(a: seq<Item>, b: seq<Item>)
    ensures ItemsToks(a + b) == ItemsToks(a) + ItemsToks(b) && Args(a + b) == Args(a) + Args(b)
  {
    if a == [] {
      assert a + b == b;
    } else {
      assert (a + b)[1..] == a[1..] + b && (a + b)[0] == a[0];
      ItemsAdd(a[1..], b);
    }
  }

  /** Redirections as items. */
  function Items(rs: seq<Redirection>): (r: seq<Item>)
    ensures |r| == |rs| && AllRedirects(r)
    ensures forall i :: 0 <= i < |rs| ==> r[i] == Redirect(rs[i].mode, rs[i].file.text)
  {
    seq(|rs|, i requires 0 <= i < |rs| => Redirect(rs[i].mode, rs[i].file.text))
  }

  lemma {:induction false} NoArgs(items: seq<Item>)
    requires AllRedirects(items)
    ensures Args(items) == []
  {
    if items != [] { NoArgs(items[1..]); }
  }

  lemma {:induction false} WrapRedirected(c: Cmd, rs: seq<Redirection>)
    ensures Plain(Wrap(c, rs)) == Redirected(Plain(c), Items(rs))
    decreases |rs|
  {
    if rs != [] {
      WrapRedirected(c, rs[..|rs| - 1]);
      assert Items(rs)[..|rs| - 1] == Items(rs[..|rs| - 1]);
    }
  }

  lemma {:induction false} SkipArg(t: Tree, a: seq<Item>, w: string, b: seq<Item>)
    ensures Redirected(t, a + [Arg(w)] + b) == Redirected(t, a + b)
    decreases |b|
  {
    var all := a + [Arg(w)] + b;
    if b == [] {
      assert all[..|all| - 1] == a && a + b == a;
    } else {
      var b' := b[..|b| - 1];
      assert all[..|all| - 1] == a + [Arg(w)] + b' && (a + b)[..|a + b| - 1] == a + b';
      SkipArg(t, a, w, b');
    }
  }

  lemma {:induction false} BehindBack(t: Tree, n: nat)
    ensures Behind(TBack(t), n) == TBack(Behind(t, n))
  {
    if n > 0 { BehindBack(t, n - 1); }
  }

  // ---- What the parser accepts is a sentence ----

  lemma FirstItem(x: Redirection, more: seq<Redirection>)
    ensures ItemsToks(Items([x] + more)) == [ArrowTok(x.mode), TextTok(x.file.text)] + ItemsToks(Items(more))
  {
    assert Items([x] + more)[1..] == Items(more);
  }

  /** One redirection and what follows it. */
  lemma OneRedir(s: string)
    requires Peek(s, "<>") && Redirs(s).Ok?
    ensures var (tok, s1) := GetToken(s); var (file, s2) := GetToken(s1);
            && file.AWord? && Redirs(s2).Ok? && |s2| < |s| && Redirs(s).rest == Redirs(s2).rest && |Redirs(s).value| > 0
            && var x := Redirs(s).value[0];
               && Redirs(s).value == [x] + Redirs(s2).value
               && Toks(s) == [ArrowTok(x.mode), TextTok(x.file.text)] + Toks(s2)
  {
    hide GetToken, Toks, Peek;
    var (tok, s1) := GetToken(s);
    var (file, s2) := GetToken(s1);
    PeekTok(s, "<>");
    TokStep(s);
    TokStep(s1);
  }

  lemma {:induction false} RedirsSound(s: string)
    requires Redirs(s).Ok?
    ensures Toks(s) == ItemsToks(Items(Redirs(s).value)) + Toks(Redirs(s).rest)
    decreases |s|
  {
    hide GetToken, Toks, Peek, ItemsToks, Items;
    SkipToks(s);
    if Peek(s, "<>") {
      OneRedir(s);
      var s2 := GetToken(GetToken(s).1).1;
      var x, more := Redirs(s).value[0], Redirs(s2).value;
      RedirsSound(s2);
      FirstItem(x, more);
      Regroup([ArrowTok(x.mode), TextTok(x.file.text)], ItemsToks(Items(more)), Toks(Redirs(s).rest), [], []);
    } else {
      assert ItemsToks(Items([])) == [] by { NoItems(); }
    }
  }

  lemma NoItems()
    ensures ItemsToks(Items([])) == []
  {
  }

  /** The items that parseexec's loop reads. */
  lemma {:induction false} LoopSound(args: seq<Word>, rs: seq<Redirection>, s: string) returns (items: seq<Item>)
    requires ExecLoop(args, rs, s).Ok? && |args| < MAXARGS
    ensures var r := ExecLoop(args, rs, s);
            && Toks(s) == ItemsToks(items) + Toks(r.rest) && |args| + |Args(items)| < MAXARGS
            && Plain(r.value) == Redirected(TExec(Texts(args) + Args(items)), Items(rs) + items)
    decreases |s|
  {
    hide GetToken, Toks, Peek, Redirs, Redirected, Texts, Items, ItemsToks, Args;
    EmptyItems();
    SkipToks(s);
    TokStep(s);
    var (tok, s1) := GetToken(s);
    if Peek(s, "|)&;") || tok == End {
      items := [];
      WrapRedirected(Exec(args), rs);
      assert Items(rs) + items == Items(rs) && Texts(args) + Args(items) == Texts(args);
      if tok == End {
        EndsEmpty(s);
        TokStep("");
      }
    } else {
      var w, more, rest := tok.w, Redirs(s1).value, Redirs(s1).rest;
      RedirsSound(s1);
      var later := LoopSound(args + [w], rs + more, rest);
      items := [Arg(w.text)] + Items(more) + later;
      JoinItems(w.text, Items(more), later);
      NextArg(args, rs, w, more, later);
      ghost var ts := Toks(ExecLoop(args, rs, s).rest);
      assert Toks(s) == [TextTok(w.text)] + (ItemsToks(Items(more)) + (ItemsToks(later) + ts));
      Regroup([TextTok(w.text)], ItemsToks(Items(more)), ItemsToks(later), ts, []);
      Regroup([TextTok(w.text)], ItemsToks(Items(more)), ItemsToks(later), [], []);
    }
  }

  lemma EndsEmpty(s: string)
    requires GetToken(s).0 == End
    ensures GetToken(s).1 == "" && GetToken("").0 == End
  {
  }

  lemma JoinItems(w: string, more: seq<Item>, later: seq<Item>)
    requires AllRedirects(more)
    ensures ItemsToks([Arg(w)] + more + later) == [TextTok(w)] + (ItemsToks(more) + ItemsToks(later))
    ensures Args([Arg(w)] + more + later) == [w] + Args(later)
  {
    OneArg(w);
    hide ItemsToks, Args;
    ItemsAdd([Arg(w)], more);
    ItemsAdd([Arg(w)] + more, later);
    NoArgs(more);
    Regroup([TextTok(w)], ItemsToks(more), ItemsToks(later), [], []);
  }

  lemma OneArg(w: string)
    ensures ItemsToks([Arg(w)]) == [TextTok(w)] && Args([Arg(w)]) == [w]
  {
    assert [Arg(w)][1..] == [];
  }

  lemma NextArg(args: seq<Word>, rs: seq<Redirection>, w: Word, more: seq<Redirection>, later: seq<Item>)
    ensures var items := [Arg(w.text)] + Items(more) + later;
            Redirected(TExec(Texts(args + [w]) + Args(later)), Items(rs + more) + later)
            == Redirected(TExec(Texts(args) + Args(items)), Items(rs) + items)
  {
    hide Redirected, Args, ItemsToks, Items, Texts;
    JoinItems(w.text, Items(more), later);
    var items := [Arg(w.text)] + Items(more) + later;
    assert Texts(args + [w]) == Texts(args) + [w.text];
    Regroup(Texts(args), [w.text], Args(later), [], []);
    var t := TExec(Texts(args) + Args(items));
    SkipArg(t, Items(rs), w.text, Items(more) + later);
    assert Items(rs + more) == Items(rs) + Items(more);
    Regroup(Items(rs), [Arg(w.text)], Items(more), later, []);
    Regroup([Arg(w.text)], Items(more), later, [], []);
    Regroup(Items(rs), [Arg(w.text)], Items(more) + later, [], []);
    Regroup(Items(rs), Items(more), later, [], []);
  }

  lemma {:induction false} AtomSound(s: string) returns (a: Atom)
    requires ParseExec(s).Ok?
    ensures AtomFits(a) && Toks(s) == AtomToks(a) + Toks(ParseExec(s).rest) && AtomTree(a) == Plain(ParseExec(s).value)
    decreases |s|, 1
  {
    hide GetToken, Toks, Peek, Redirs, ExecLoop, ParseLine, ParseBlock, ItemsToks, Args, Redirected, Items, Texts;
    if Peek(s, "(") {
      a := GroupSound(s);
    } else {
      var rs, rest := Redirs(s).value, Redirs(s).rest;
      RedirsSound(s);
      var items := LoopSound([], rs, rest);
      a := Simple(Items(rs) + items);
      ItemsAdd(Items(rs), items);
      NoArgs(Items(rs));
      assert Texts([]) + Args(items) == Args(items);
      Regroup(ItemsToks(Items(rs)), ItemsToks(items), Toks(ParseExec(s).rest), [], []);
      assert [] + Args(items) == Args(items);
    }
  }

  lemma {:induction false} GroupSound(s: string) returns (a: Atom)
    requires ParseBlock(s).Ok?
    ensures AtomFits(a) && Toks(s) == AtomToks(a) + Toks(ParseBlock(s).rest) && AtomTree(a) == Plain(ParseBlock(s).value)
    decreases |s|, 0
  {
    hide GetToken, Toks, Peek, Redirs, ParseLine;
    PeekTok(s, "(");
    TokStep(s);
    var inner := GetToken(s).1;
    var line := LineSound(inner);
    var s1 := ParseLine(inner).rest;
    PeekTok(s1, ")");
    TokStep(s1);
    var s2 := GetToken(s1).1;
    RedirsSound(s2);
    var rs := Redirs(s2).value;
    WrapRedirected(ParseLine(inner).value, rs);
    a := Group(line, Items(rs));
    assert Toks(s) == [SymTok('(')] + (LineToks(line) + ([SymTok(')')] + Toks(s2)));
    Regroup([SymTok('(')], LineToks(line), [SymTok(')')], ItemsToks(Items(rs)), Toks(Redirs(s2).rest));
  }

  lemma {:induction false} ChainSound(s: string) returns (c: Chain)
    requires ParsePipe(s).Ok?
    ensures ChainFits(c) && Toks(s) == ChainToks(c) + Toks(ParsePipe(s).rest) && ChainTree(c) == Plain(ParsePipe(s).value)
    decreases |s|, 2
  {
    hide GetToken, Toks, Peek, ParseExec;
    var a := AtomSound(s);
    var s1 := ParseExec(s).rest;
    if Peek(s1, "|") {
      PeekTok(s1, "|");
      TokStep(s1);
      var s2 := GetToken(s1).1;
      var more := ChainSound(s2);
      c := Bar(a, more);
      assert Toks(s) == AtomToks(a) + ([SymTok('|')] + Toks(s2));
      Regroup(AtomToks(a), [SymTok('|')], ChainToks(more), Toks(ParsePipe(s).rest), []);
    } else {
      SkipToks(s1);
      c := Last(a);
    }
  }

  lemma {:induction false} AmpsSound(c: Cmd, s: string) returns (n: nat)
    ensures Toks(s) == Amps(n) + Toks(Backs(c, s).1) && Plain(Backs(c, s).0) == Behind(Plain(c), n)
    decreases |s|
  {
    hide GetToken, Toks, Peek;
    if Peek(s, "&") {
      PeekTok(s, "&");
      TokStep(s);
      var s1 := GetToken(s).1;
      var k := AmpsSound(Back(c), s1);
      n := k + 1;
      BehindBack(Plain(c), k);
      assert Toks(s) == [SymTok('&')] + Toks(s1);
    } else {
      SkipToks(s);
      n := 0;
    }
  }

  lemma {:induction false} LineSound(s: string) returns (l: Line)
    requires ParseLine(s).Ok?
    ensures LineFits(l) && Toks(s) == LineToks(l) + Toks(ParseLine(s).rest) && LineTree(l) == Plain(ParseLine(s).value)
    decreases |s|, 3
  {
    hide GetToken, Toks, Peek, ParsePipe, ChainToks, ChainTree, ChainFits, Amps, Behind;
    var c := ChainSound(s);
    var r := ParsePipe(s);
    var n := AmpsSound(r.value, r.rest);
    var (d, s2) := Backs(r.value, r.rest);
    if Peek(s2, ";") {
      PeekTok(s2, ";");
      TokStep(s2);
      var s3 := GetToken(s2).1;
      var more := LineSound(s3);
      l := Semi(c, n, more);
      assert Toks(s) == ChainToks(c) + (Amps(n) + ([SymTok(';')] + Toks(s3)));
      Regroup(ChainToks(c), Amps(n), [SymTok(';')], LineToks(more), Toks(ParseLine(s).rest));
    } else {
      SkipToks(s2);
      l := Only(c, n);
    }
  }

  // ---- Every sentence is accepted ----

  /** No redirection comes next. */
  predicate NoArrow(ts: seq<Tok>) { ts == [] || FirstChar(ts[0]) !in "<>" }

  /** The end of a simple command comes next. */
  predicate Ends(ts: seq<Tok>) { ts == [] || FirstChar(ts[0]) in "|)&;" }

  /** The end of a pipeline comes next. */
  predicate PipeEnds(ts: seq<Tok>) { ts == [] || FirstChar(ts[0]) in ")&;" }

  /** The end of a line comes next. */
  predicate LineEnds(ts: seq<Tok>) { ts == [] || FirstChar(ts[0]) in ")" }

  lemma RedirectFirst(items: seq<Item>, ts: seq<Tok>)
    requires items != [] && items[0].Redirect?
    ensures ItemsToks(items) + ts == [ArrowTok(items[0].mode), TextTok(items[0].file)] + (ItemsToks(items[1..]) + ts)
  {
    Regroup([ArrowTok(items[0].mode), TextTok(items[0].file)], ItemsToks(items[1..]), ts, [], []);
  }

  /** parseredirs at a redirection. */
  lemma RedirNext(s: string, mode: Mode, file: string, ts: seq<Tok>) returns (s2: string)
    requires Toks(s) == [ArrowTok(mode), TextTok(file)] + ts
    ensures Toks(s2) == ts
    ensures Redirs(s2).Ok? ==>
              && Redirs(s).Ok? && Redirs(s).rest == Redirs(s2).rest
              && Items(Redirs(s).value) == [Redirect(mode, file)] + Items(Redirs(s2).value)
  {
    hide GetToken, Toks, Peek, Skip, Items;
    PeekTok(s, "<>");
    TokStep(s);
    var (tok, s1) := GetToken(s);
    TokStep(s1);
    s2 := GetToken(s1).1;
    if Redirs(s2).Ok? {
      var x := Redirs(s).value[0];
      assert Redirs(s).value == [x] + Redirs(s2).value;
      ItemsOne(x, Redirs(s2).value);
    }
  }

  lemma ItemsOne(x: Redirection, more: seq<Redirection>)
    ensures Items([x] + more) == [Redirect(x.mode, x.file.text)] + Items(more)
  {
  }

  lemma {:induction false} RedirsComplete(items: seq<Item>, s: string, ts: seq<Tok>)
    requires AllRedirects(items) && Toks(s) == ItemsToks(items) + ts && NoArrow(ts)
    ensures var r := Redirs(s); r.Ok? && Items(r.value) == items && Toks(r.rest) == ts
    decreases |items|
  {
    hide GetToken, Toks, Peek, Skip, ItemsToks, Items;
    EmptyItems();
    if items == [] {
      PeekTok(s, "<>");
      SkipToks(s);
    } else {
      RedirectFirst(items, ts);
      var s2 := RedirNext(s, items[0].mode, items[0].file, ItemsToks(items[1..]) + ts);
      RedirsComplete(items[1..], s2, ts);
    }
  }

  /** How many redirections are in front. */
  function Lead(items: seq<Item>): (k: nat)
    ensures k <= |items| && AllRedirects(items[..k]) && (k < |items| ==> items[k].Arg?)
  {
    if items != [] && items[0].Redirect? then
      var k := Lead(items[1..]);
      assert items[..k + 1] == [items[0]] + items[1..][..k];
      k + 1
    else 0
  }

  lemma ArgFirst(items: seq<Item>, ts: seq<Tok>)
    requires (items == [] || items[0].Arg?) && Ends(ts)
    ensures NoArrow(ItemsToks(items) + ts)
  {
  }

  /** A word, the redirections behind it, and the rest. */
  lemma SplitItems(items: seq<Item>, ts: seq<Tok>)
    requires items != [] && items[0].Arg?
    ensures var k := Lead(items[1..]);
            var lead, later := items[1..][..k], items[1..][k..];
            && items == [items[0]] + lead + later && Args(items) == [items[0].text] + Args(later)
            && ItemsToks(items) + ts == [TextTok(items[0].text)] + (ItemsToks(lead) + (ItemsToks(later) + ts))
  {
    var k := Lead(items[1..]);
    var lead, later := items[1..][..k], items[1..][k..];
    assert items == [items[0]] + lead + later;
    hide ItemsToks, Args, Lead;
    JoinItems(items[0].text, lead, later);
    Regroup([TextTok(items[0].text)], ItemsToks(lead), ItemsToks(later), ts, []);
    Regroup([TextTok(items[0].text)], ItemsToks(lead), ItemsToks(later), [], []);
  }

  /** The redirections in front, and the rest. */
  lemma SplitLead(items: seq<Item>, ts: seq<Tok>)
    ensures var k := Lead(items);
            && items == items[..k] + items[k..] && Args(items) == Args(items[k..])
            && ItemsToks(items) + ts == ItemsToks(items[..k]) + (ItemsToks(items[k..]) + ts)
  {
    var k := Lead(items);
    assert items == items[..k] + items[k..];
    hide ItemsToks, Args, Lead;
    ItemsAdd(items[..k], items[k..]);
    NoArgs(items[..k]);
    Regroup(ItemsToks(items[..k]), ItemsToks(items[k..]), ts, [], []);
  }

  lemma EmptyItems()
    ensures ItemsToks([]) == [] && Args([]) == []
  {
  }

  lemma {:induction false} LoopComplete(args: seq<Word>, rs: seq<Redirection>, items: seq<Item>, s: string, ts: seq<Tok>)
    requires (items == [] || items[0].Arg?) && |args| + |Args(items)| < MAXARGS
    requires Toks(s) == ItemsToks(items) + ts && Ends(ts)
    ensures var r := ExecLoop(args, rs, s);
            && r.Ok? && Toks(r.rest) == ts
            && Plain(r.value) == Redirected(TExec(Texts(args) + Args(items)), Items(rs) + items)
    decreases |items|
  {
    hide GetToken, Toks, Peek, Skip, Redirs, Redirected, Texts, Items, ItemsToks, Args, Lead;
    EmptyItems();
    PeekTok(s, "|)&;");
    SkipToks(s);
    TokStep(s);
    var (tok, s1) := GetToken(s);
    if items == [] {
      WrapRedirected(Exec(args), rs);
      assert Items(rs) + items == Items(rs) && Texts(args) + Args(items) == Texts(args);
      if tok == End {
        EndsEmpty(s);
        TokStep("");
      }
    } else {
      var k := Lead(items[1..]);
      var lead, later := items[1..][..k], items[1..][k..];
      SplitItems(items, ts);
      assert Toks(s)[0] == TextTok(items[0].text);
      assert Toks(s1) == ItemsToks(lead) + (ItemsToks(later) + ts);
      ArgFirst(later, ts);
      RedirsComplete(lead, s1, ItemsToks(later) + ts);
      var more, rest := Redirs(s1).value, Redirs(s1).rest;
      LoopComplete(args + [tok.w], rs + more, later, rest, ts);
      NextArg(args, rs, tok.w, more, later);
    }
  }

  /** A simple command does not begin with a parenthesis. */
  lemma NoParen(items: seq<Item>, ts: seq<Tok>)
    requires Ends(ts)
    ensures var all := ItemsToks(items) + ts; all == [] || FirstChar(all[0]) != '('
  {
  }

  lemma SimpleComplete(items: seq<Item>, s: string, ts: seq<Tok>)
    requires |Args(items)| < MAXARGS && Toks(s) == ItemsToks(items) + ts && Ends(ts)
    ensures var r := ParseExec(s);
            r.Ok? && Toks(r.rest) == ts && Plain(r.value) == Redirected(TExec(Args(items)), items)
  {
    hide GetToken, Toks, Peek, Redirs, Redirected, Texts, Items, ExecLoop, ParseBlock, ItemsToks, Args, Lead;
    PeekTok(s, "(");
    NoParen(items, ts);
    var k := Lead(items);
    var lead, later := items[..k], items[k..];
    SplitLead(items, ts);
    ArgFirst(later, ts);
    RedirsComplete(lead, s, ItemsToks(later) + ts);
    var rs, rest := Redirs(s).value, Redirs(s).rest;
    LoopComplete([], rs, later, rest, ts);
    assert Texts([]) + Args(later) == Args(items);
  }

  /** The text behind an opening parenthesis. */
  lemma {:induction false} GroupComplete(line: Line, redirects: seq<Item>, s: string, ts: seq<Tok>)
    requires LineFits(line) && AllRedirects(redirects) && Toks(s) == AtomToks(Group(line, redirects)) + ts && Ends(ts)
    ensures var r := ParseExec(s);
            r.Ok? && Toks(r.rest) == ts && Plain(r.value) == Redirected(LineTree(line), redirects)
    decreases line, 1
  {
    hide GetToken, Toks, Peek, Redirs, Redirected, ParseLine, LineToks, LineTree, ItemsToks;
    var tail := ItemsToks(redirects) + ts;
    Regroup([SymTok('(')], LineToks(line), [SymTok(')')], ItemsToks(redirects), ts);
    PeekTok(s, "(");
    TokStep(s);
    var inner := GetToken(s).1;
    assert Toks(inner) == LineToks(line) + ([SymTok(')')] + tail);
    LineComplete(line, inner, [SymTok(')')] + tail);
    var s1 := ParseLine(inner).rest;
    PeekTok(s1, ")");
    TokStep(s1);
    var s2 := GetToken(s1).1;
    RedirsComplete(redirects, s2, ts);
    WrapRedirected(ParseLine(inner).value, Redirs(s2).value);
  }

  lemma {:induction false} AtomComplete(a: Atom, s: string, ts: seq<Tok>)
    requires AtomFits(a) && Toks(s) == AtomToks(a) + ts && Ends(ts)
    ensures var r := ParseExec(s); r.Ok? && Toks(r.rest) == ts && Plain(r.value) == AtomTree(a)
    decreases a, 0
  {
    hide ParseExec, Toks, Redirected, ItemsToks, Args, LineTree, LineToks, LineFits;
    match a
    case Simple(items) => SimpleComplete(items, s, ts);
    case Group(line, redirects) => GroupComplete(line, redirects, s, ts);
  }

  lemma {:induction false} ChainComplete(c: Chain, s: string, ts: seq<Tok>)
    requires ChainFits(c) && Toks(s) == ChainToks(c) + ts && PipeEnds(ts)
    ensures var r := ParsePipe(s); r.Ok? && Toks(r.rest) == ts && Plain(r.value) == ChainTree(c)
    decreases c, 0
  {
    hide ParseExec, GetToken, Toks, Peek, AtomToks, AtomTree, AtomFits;
    match c
    case Last(a) =>
      AtomComplete(a, s, ts);
      var s1 := ParseExec(s).rest;
      PeekTok(s1, "|");
      SkipToks(s1);
    case Bar(a, more) =>
      var next := [SymTok('|')] + (ChainToks(more) + ts);
      Regroup(AtomToks(a), [SymTok('|')], ChainToks(more), ts, []);
      AtomComplete(a, s, next);
      var s1 := ParseExec(s).rest;
      PeekTok(s1, "|");
      TokStep(s1);
      ChainComplete(more, GetToken(s1).1, ts);
  }

  lemma {:induction false} AmpsComplete(c: Cmd, n: nat, s: string, ts: seq<Tok>)
    requires Toks(s) == Amps(n) + ts && (ts == [] || FirstChar(ts[0]) != '&')
    ensures Toks(Backs(c, s).1) == ts && Plain(Backs(c, s).0) == Behind(Plain(c), n)
    decreases n
  {
    hide GetToken, Toks, Peek;
    PeekTok(s, "&");
    SkipToks(s);
    if n > 0 {
      TokStep(s);
      assert Toks(s)[1..] == Amps(n - 1) + ts;
      AmpsComplete(Back(c), n - 1, GetToken(s).1, ts);
      BehindBack(Plain(c), n - 1);
    }
  }

  lemma AmpsEnd(n: nat, ts: seq<Tok>)
    requires ts == [] || FirstChar(ts[0]) in ");"
    ensures PipeEnds(Amps(n) + ts)
  {
  }

  lemma {:induction false} LineComplete(l: Line, s: string, ts: seq<Tok>)
    requires LineFits(l) && Toks(s) == LineToks(l) + ts && LineEnds(ts)
    ensures var r := ParseLine(s); r.Ok? && Toks(r.rest) == ts && Plain(r.value) == LineTree(l)
    decreases l, 0
  {
    hide ParsePipe, GetToken, Toks, Peek, ChainToks, ChainTree, ChainFits, Amps, Behind, Backs;
    var next := if l.Only? then ts else [SymTok(';')] + (LineToks(l.more) + ts);
    if l.Only? {
      Regroup(ChainToks(l.chain), Amps(l.amps), ts, [], []);
    } else {
      Regroup(ChainToks(l.chain), Amps(l.amps), [SymTok(';')], LineToks(l.more), ts);
    }
    AmpsEnd(l.amps, next);
    ChainComplete(l.chain, s, Amps(l.amps) + next);
    var r := ParsePipe(s);
    AmpsComplete(r.value, l.amps, r.rest, next);
    var (d, s2) := Backs(r.value, r.rest);
    PeekTok(s2, ";");
    if l.Only? {
      SkipToks(s2);
    } else {
      TokStep(s2);
      LineComplete(l.more, GetToken(s2).1, ts);
    }
  }

  /** The parser accepts exactly the sentences of the grammar, and gives each its meaning: no token is lost,
      and redirections stand before, between and behind the words. */
  lemma ParserExact(s: string, t: Tree)
    ensures ParseCmd(s).Ok? && Plain(ParseCmd(s).value) == t <==> exists l :: Means(s, l, t)
  {
    hide ParseLine, LineToks, LineTree, LineFits, Toks;
    if ParseCmd(s).Ok? && Plain(ParseCmd(s).value) == t {
      var l := LineSound(s);
      var rest := ParseLine(s).rest;
      NoToks(rest);
      assert LineToks(l) + Toks(rest) == LineToks(l);
      assert Means(s, l, t);
    }
    if l :| Means(s, l, t) {
      assert LineToks(l) + [] == LineToks(l);
      LineComplete(l, s, []);
      NoToks(ParseLine(s).rest);
    }
  }

  lemma NoToks(s: string)
    ensures Toks(s) == [] <==> Skip(s) == ""
  {
    hide Skip;
  }

  // ---- Spelling ----

  function Text(t: Tok): string {
    match t
    case TextTok(text) => text
    case SymTok(c) => [c]
    case DoubleTok => ">>"
  }

  predicate Blank(gap: string) { forall i :: 0 <= i < |gap| ==> gap[i] in " \t\r\n\U{0B}" }

  /** Tokens as they can be written. */
  predicate Written(t: Tok) {
    match t
    case TextTok(text) => text != "" && forall i :: 0 <= i < |text| ==> text[i] !in " \t\r\n\U{0B}<|>&;()"
    case SymTok(c) => c in "<|>&;()"
    case DoubleTok => true
  }

  /** Without white space between them the tokens would read as others. */
  predicate Clash(a: Tok, b: Tok) { (a.TextTok? && b.TextTok?) || (a == SymTok('>') && FirstChar(b) == '>') }

  /** The tokens, with the given white space in front of each and behind the last. */
  function Spelled(ts: seq<Tok>, gaps: seq<string>): string
    requires |gaps| == |ts| + 1
    decreases |ts|
  {
    if ts == [] then gaps[0] else gaps[0] + (Text(ts[0]) + Spelled(ts[1..], gaps[1..]))
  }

  predicate Spells(ts: seq<Tok>, gaps: seq<string>) {
    && |gaps| == |ts| + 1 && (forall i :: 0 <= i < |gaps| ==> Blank(gaps[i]))
    && (forall i :: 0 <= i < |ts| ==> Written(ts[i]))
    && (forall i :: 0 < i < |ts| && Clash(ts[i - 1], ts[i]) ==> gaps[i] != "")
  }

  lemma {:induction false} SkipGap(gap: string, s: string)
    requires Blank(gap)
    ensures Skip(gap + s) == Skip(s)
  {
    if gap == "" {
      assert gap + s == s;
    } else {
      assert (gap + s)[1..] == gap[1..] + s && IsSpace(gap[0]);
      SkipGap(gap[1..], s);
    }
  }

  lemma SymbolRead(c: char, s: string)
    requires IsSymbol(c) && (c == '>' ==> s == "" || s[0] != '>')
    ensures GetToken([c] + s) == (Symbol(c), Skip(s)) && Skip([c] + s) == [c] + s
  {
    assert ([c] + s)[1..] == s;
  }

  lemma TokenRead(t: Tok, s: string)
    requires Written(t)
    requires t.TextTok? ==> s == "" || !IsWord(s[0])
    requires t == SymTok('>') ==> s == "" || s[0] != '>'
    ensures var (tok, rest) := GetToken(Text(t) + s); tok != End && Bare(tok) == t && rest == Skip(s)
  {
    match t
    case TextTok(text) => ShellRoundTrip.WordToken(text, s);
    case SymTok(c) => SymbolRead(c, s);
    case DoubleTok => assert (">>" + s)[2..] == s;
  }

  /** What follows a token does not become part of it. */
  lemma Apart(ts: seq<Tok>, gaps: seq<string>)
    requires Spells(ts, gaps) && ts != []
    ensures var s := Spelled(ts[1..], gaps[1..]);
            && (ts[0].TextTok? ==> s == "" || !IsWord(s[0]))
            && (ts[0] == SymTok('>') ==> s == "" || s[0] != '>')
  {
    var gap := gaps[1..][0];
    if gap != "" {
      assert IsSpace(gap[0]);
    } else if |ts| > 1 {
      assert ts[1..][0] == ts[1] && Written(ts[1]) && !Clash(ts[0], ts[1]);
    }
  }

  lemma GapSkipped(gap: string, t: string)
    requires Blank(gap)
    ensures Toks(gap + t) == Toks(t)
  {
    hide Toks, Blank;
    SkipGap(gap, t);
    SkipToks(gap + t);
    SkipToks(t);
  }

  lemma NoMore(gap: string)
    requires Blank(gap)
    ensures Toks(gap) == []
  {
    hide Toks;
    assert gap + "" == gap;
    SkipGap(gap, "");
    NoToks(gap);
  }

  lemma FirstRead(t: Tok, later: string)
    requires Written(t) && (t.TextTok? ==> later == "" || !IsWord(later[0]))
    requires t == SymTok('>') ==> later == "" || later[0] != '>'
    ensures Toks(Text(t) + later) == [t] + Toks(later)
  {
    hide GetToken, Written, Toks, Text;
    TokenRead(t, later);
    TokStep(Text(t) + later);
    SkipToks(later);
  }

  /** gettoken reads every spelling of the tokens as these tokens. */
  lemma {:induction false} Lexes(ts: seq<Tok>, gaps: seq<string>)
    requires Spells(ts, gaps)
    ensures Toks(Spelled(ts, gaps)) == ts
    decreases |ts|
  {
    hide Written, Toks, Blank, Text, Clash;
    if ts == [] {
      NoMore(gaps[0]);
    } else {
      var later := Spelled(ts[1..], gaps[1..]);
      GapSkipped(gaps[0], Text(ts[0]) + later);
      Apart(ts, gaps);
      FirstRead(ts[0], later);
      Lexes(ts[1..], gaps[1..]);
    }
  }

  /** The parser undoes every spelling of every sentence. */
  lemma BareRoundTrip(l: Line, gaps: seq<string>)
    requires LineFits(l) && Spells(LineToks(l), gaps)
    ensures var r := ParseCmd(Spelled(LineToks(l), gaps)); r.Ok? && Plain(r.value) == LineTree(l)
  {
    hide LineFits, LineToks, LineTree, ParseCmd;
    Lexes(LineToks(l), gaps);
    var s := Spelled(LineToks(l), gaps);
    assert Means(s, l, LineTree(l));
    ParserExact(s, LineTree(l));
  }
}
