/** grep's loop over a file that comes in pieces (user/grep.c). */
module Grep {
  import opened Regex

  const BUFSIZE := 1024

  /** The position of the first newline, or the length of s. */
  function Newline(s: string): (k: nat)
    ensures k <= |s| && (forall i :: 0 <= i < k ==> s[i] != '\n') && (k < |s| ==> s[k] == '\n')
  {
    if s == "" || s[0] == '\n' then 0 else 1 + Newline(s[1..])
  }

  /** A line as grep prints it: itself and its newline, if it matches. */
  ghost function Print(re: string, line: string): string {
    if Matches(re, line) then line + "\n" else ""
  }

  /** The matching lines of s, in order; what follows the last newline is not a line. */
  ghost function Lines(re: string, s: string): string
    decreases |s|
  {
    var k := Newline(s);
    if k == |s| then "" else Print(re, s[..k]) + Lines(re, s[k + 1..])
  }

  /** A line that grep can take: it fits the buffer with its newline, and has no NUL byte in it. */
  predicate Takes(line: string) { |line| < BUFSIZE - 1 && '\0' !in line }

  /** s up to the first line that grep cannot take. */
  function Before(s: string): (r: string)
    ensures r <= s
    decreases |s|
  {
    var k := Newline(s);
    if k == |s| then s else if !Takes(s[..k]) then "" else s[..k + 1] + Before(s[k + 1..])
  }

  /** grep can take every line. */
  predicate Fitting(s: string)
    decreases |s|
  {
    var k := Newline(s);
    k == |s| || (Takes(s[..k]) && Fitting(s[k + 1..]))
  }

  // ---- What strchr finds ----

  /** The position of the first newline if no NUL comes before it, or the length of s. */
  function StrNewline(s: string): (k: nat)
    ensures k <= |s| && (k < |s| ==> s[k] == '\n')
  {
    var k := Newline(s);
    if '\0' in s[..k] then |s| else k
  }

  /** The matching lines as far as strchr finds newlines. */
  ghost function Scanned(re: string, s: string): string
    decreases |s|
  {
    var k := StrNewline(s);
    if k == |s| then "" else Print(re, s[..k]) + Scanned(re, s[k + 1..])
  }

  /** What then is left. */
  function Kept(s: string): (t: string)
    ensures |t| <= |s|
    decreases |s|
  {
    var k := StrNewline(s);
    if k == |s| then s else Kept(s[k + 1..])
  }

  /** None of those lines is too long for the buffer. */
  predicate Short(s: string)
    decreases |s|
  {
    var k := StrNewline(s);
    k == |s| || (k < BUFSIZE - 1 && Short(s[k + 1..]))
  }

  // ---- The loop ----

  /** How much the t-th read returns: anything from 1 to what there is and what it may. */
  function Chunk(want: nat -> nat, t: nat, most: nat): (n: nat)
    ensures n <= most && (n == 0 <==> most == 0)
  {
    if want(t) == 0 && most > 0 then 1 else if want(t) > most then most else want(t)
  }

  /** read: n bytes of the input from pos on arrive in the buffer at m. */
  method Read(buf: array<char>, m: nat, input: string, pos: nat, n: nat)
    requires m + n < buf.Length && pos + n <= |input|
    modifies buf
    ensures buf[..m + n] == old(buf[..m]) + input[pos..pos + n] && buf[m + n] == '\0'
  {
    var i := 0;
    while i < n
      invariant 0 <= i <= n && buf[..m] == old(buf[..m]) && buf[m..m + i] == input[pos..pos + i]
    {
      buf[m + i] := input[pos + i];
      i := i + 1;
    }
    buf[m + n] := '\0';
    assert buf[..m + n] == buf[..m] + buf[m..m + n];
  }

  /** memmove of the bytes p..m-1 to the front. */
  method Shift(buf: array<char>, p: nat, m: nat)
    requires p <= m <= buf.Length
    modifies buf
    ensures buf[..m - p] == old(buf[p..m])
  {
    ghost var rest := buf[p..m];
    var i := 0;
    while i < m - p
      invariant 0 <= i <= m - p && buf[..i] == rest[..i] && buf[p + i..m] == rest[i..]
    {
      assert buf[p + i] == rest[i];
      buf[i] := buf[p + i];
      i := i + 1;
    }
  }

  /** strchr(p, '\n') in the buffer: the first newline before a NUL. */
  method StrChr(buf: array<char>, p: nat, m: nat) returns (q: nat)
    requires p <= m < buf.Length && buf[m] == '\0'
    ensures q == p + StrNewline(buf[p..m])
  {
    q := p;
    while buf[q] != '\n' && buf[q] != '\0'
      invariant p <= q <= m && forall i :: p <= i < q ==> buf[i] != '\n' && buf[i] != '\0'
      decreases m - q
    {
      q := q + 1;
    }
    FirstStop(buf[p..m], q - p);
    if buf[q] == '\0' {
      q := m;
    }
  }

  /** Prints the line from p up to the newline at q, if it matches. */
  method PrintLine(re: string, buf: array<char>, p: nat, q: nat) returns (out: string)
    requires p <= q < buf.Length && buf[q] == '\n'
    modifies buf
    ensures out == Print(re, old(buf[p..q]))
    ensures forall i :: 0 <= i < buf.Length && i != q ==> buf[i] == old(buf[i])
  {
    ghost var line := buf[p..q];
    buf[q] := '\0';
    assert buf[p..q] == line;
    out := "";
    var found := Match(re, buf[p..q]);
    if found {
      buf[q] := '\n';
      assert buf[p..q + 1] == line + "\n";
      out := buf[p..q + 1];
    }
  }

  /** The inner loop: prints the matching lines in the buffer and returns where the rest begins. */
  method Scan(re: string, buf: array<char>, m: nat) returns (out: string, p: nat)
    requires m < buf.Length && buf[m] == '\0'
    modifies buf
    ensures p <= m && out == Scanned(re, old(buf[..m])) && buf[p..m] == Kept(old(buf[..m]))
  {
    hide Scanned, Kept, Print, StrNewline;
    ghost var text := buf[..m];
    p, out := 0, "";
    assert text[0..] == text && buf[0..m] == text;
    var q := StrChr(buf, p, m);
    while q < m
      invariant p <= q <= m && buf[p..m] == text[p..] && buf[m] == '\0' && q == p + StrNewline(text[p..])
      invariant Scanned(re, text) == out + Scanned(re, text[p..]) && Kept(text) == Kept(text[p..])
      decreases m - p
    {
      NextLine(re, text[p..]);
      assert buf[q] == buf[p..m][q - p];
      assert text[p..][..q - p] == buf[p..q] && text[p..][q - p + 1..] == text[q + 1..];
      var printed := PrintLine(re, buf, p, q);
      out := out + printed;
      p := q + 1;
      SliceFrom(buf, text, p, m);
      q := StrChr(buf, p, m);
    }
    NoMore(re, text[p..]);
  }

  lemma SliceFrom(buf: array<char>, text: string, p: nat, m: nat)
    requires p <= m == |text| <= buf.Length && forall i :: p <= i < m ==> buf[i] == text[i]
    ensures buf[p..m] == text[p..]
  {
  }

  /** grep on any input, however read splits it: the output is the matching lines, as far as the first
      line that does not fit the buffer or has a NUL byte in it. */
  method Grep(re: string, input: string, want: nat -> nat) returns (out: string)
    ensures out == Lines(re, Before(input))
  {
    hide Lines, Scanned, Kept, Before, Short, Newline, StrNewline;
    var buf := new char[BUFSIZE];
    var m, pos, t := 0, 0, 0;
    out := "";
    assert input[..0] == "" && buf[..0] == "";
    Nothing(re);
    while true
      invariant 0 <= pos <= |input| && 0 <= m < BUFSIZE && buf.Length == BUFSIZE
      invariant buf[..m] == Kept(input[..pos]) && out == Scanned(re, input[..pos]) && Short(input[..pos])
      decreases |input| - pos
    {
      var room := if |input| - pos < BUFSIZE - m - 1 then |input| - pos else BUFSIZE - m - 1;
      var n := Chunk(want, t, room);
      if n == 0 {
        break;
      }
      t := t + 1;
      Piece(re, input, pos, n);
      Read(buf, m, input, pos, n);
      pos := pos + n;
      m := m + n;
      var printed, p := Scan(re, buf, m);
      out := out + printed;
      Shift(buf, p, m);
      m := m - p;
    }
    assert input == input[..pos] + input[pos..];
    Stops(re, input[..pos], input[pos..]);
  }

  // ---- The loop's lemmas ----

  /** Where a scan for a newline or a NUL ends. */
  lemma FirstStop(s: string, k: nat)
    requires k <= |s| && (forall i :: 0 <= i < k ==> s[i] != '\n' && s[i] != '\0')
    ensures k == |s| || s[k] == '\n' ==> StrNewline(s) == k
    ensures k < |s| && s[k] == '\0' ==> StrNewline(s) == |s|
  {
    hide Newline;
    var n := Newline(s);
    if k < |s| && s[k] == '\0' { assert s[..n][k] == '\0'; }
  }

  lemma Nothing(re: string)
    ensures Lines(re, "") == "" && Scanned(re, "") == "" && Kept("") == "" && Short("")
  {
  }

  lemma NextLine(re: string, s: string)
    requires StrNewline(s) < |s|
    ensures var k := StrNewline(s);
            && Scanned(re, s) == Print(re, s[..k]) + Scanned(re, s[k + 1..]) && Kept(s) == Kept(s[k + 1..])
            && (Short(s) <==> k < BUFSIZE - 1 && Short(s[k + 1..]))
  {
  }

  lemma NoMore(re: string, s: string)
    requires StrNewline(s) == |s|
    ensures Scanned(re, s) == "" && Kept(s) == s && Short(s)
  {
  }

  lemma {:induction false} NewlineOf(a: string, b: string)
    ensures Newline(a) < |a| ==> Newline(a + b) == Newline(a)
    ensures Newline(a) == |a| ==> Newline(a + b) == |a| + Newline(b)
    decreases |a|
  {
    if a == "" {
      assert a + b == b;
    } else if a[0] != '\n' {
      assert (a + b)[1..] == a[1..] + b;
      NewlineOf(a[1..], b);
    }
  }

  lemma StrNewlineOf(a: string, b: string)
    requires StrNewline(a) < |a|
    ensures StrNewline(a + b) == StrNewline(a) == Newline(a) == Newline(a + b)
  {
    hide Newline;
    NewlineOf(a, b);
    assert (a + b)[..Newline(a)] == a[..Newline(a)];
  }

  /** Lines that come in pieces: only what is left has to be kept. */
  lemma {:induction false} Arrives(re: string, a: string, b: string)
    ensures Scanned(re, a + b) == Scanned(re, a) + Scanned(re, Kept(a) + b)
    ensures Kept(a + b) == Kept(Kept(a) + b)
    ensures Short(a + b) <==> Short(a) && Short(Kept(a) + b)
    decreases |a|
  {
    hide Scanned, Kept, Short, StrNewline;
    var k := StrNewline(a);
    if k < |a| {
      StrNewlineOf(a, b);
      NextLine(re, a);
      NextLine(re, a + b);
      assert (a + b)[..k] == a[..k] && (a + b)[k + 1..] == a[k + 1..] + b;
      Arrives(re, a[k + 1..], b);
    } else {
      NoMore(re, a);
    }
  }

  lemma {:induction false} InBuffer(s: string)
    requires |s| < BUFSIZE
    ensures Short(s)
    decreases |s|
  {
    var k := StrNewline(s);
    if k < |s| { InBuffer(s[k + 1..]); }
  }

  /** The next n bytes of the input. */
  lemma Piece(re: string, input: string, pos: nat, n: nat)
    requires pos + n <= |input| && Short(input[..pos]) && |Kept(input[..pos])| + n < BUFSIZE
    ensures var text := Kept(input[..pos]) + input[pos..pos + n];
            && Short(input[..pos + n]) && Kept(input[..pos + n]) == Kept(text)
            && Scanned(re, input[..pos + n]) == Scanned(re, input[..pos]) + Scanned(re, text)
  {
    hide Scanned, Kept, Short;
    var a, b := input[..pos], input[pos..pos + n];
    Arrives(re, a, b);
    InBuffer(Kept(a) + b);
    assert a + b == input[..pos + n];
  }

  /** Reading stops at the end, or when what is left has filled the buffer. */
  lemma {:induction false} Stops(re: string, a: string, b: string)
    requires Short(a) && (b == "" || |Kept(a)| >= BUFSIZE - 1)
    ensures Scanned(re, a) == Lines(re, Before(a + b))
    decreases |a|
  {
    hide Lines, Scanned, Kept, Before, Short, StrNewline, Newline;
    var k := StrNewline(a);
    if k < |a| {
      NextLine(re, a);
      Stops(re, a[k + 1..], b);
      OneTaken(re, a, b);
    } else {
      NoMore(re, a);
      Stuck(re, a, b);
    }
  }

  /** A line that the loop has dealt with. */
  lemma OneTaken(re: string, a: string, b: string)
    requires StrNewline(a) < |a| && StrNewline(a) < BUFSIZE - 1
    ensures var k := StrNewline(a);
            Lines(re, Before(a + b)) == Print(re, a[..k]) + Lines(re, Before(a[k + 1..] + b))
  {
    hide Lines, Before, StrNewline, Newline, Print;
    var k := StrNewline(a);
    var head, rest := a[..k + 1], a[k + 1..];
    StrNewlineOf(a, b);
    NoNul(a);
    FirstLine(re, a + b);
    assert (a + b)[..k] == a[..k] && (a + b)[..k + 1] == head && (a + b)[k + 1..] == rest + b;
    HeadLine(a);
    LineAndRest(re, head, Before(rest + b));
    assert head[..k] == a[..k];
  }

  lemma NoNul(s: string)
    requires StrNewline(s) < |s|
    ensures StrNewline(s) == Newline(s) && '\0' !in s[..Newline(s)]
  {
  }

  /** What strchr finds no newline in, and fills the buffer, ends the output. */
  lemma Stuck(re: string, a: string, b: string)
    requires StrNewline(a) == |a| && (b == "" || |a| >= BUFSIZE - 1)
    ensures Lines(re, Before(a + b)) == ""
  {
    hide Newline, Lines, Before;
    NewlineOf(a, b);
    var k := Newline(a + b);
    if k == |a + b| {
      NoLine(re, a + b);
    } else {
      FirstLine(re, a + b);
      Nothing(re);
      if Newline(a) < |a| {
        assert (a + b)[..k] == a[..k];
      }
    }
  }

  // ---- Lines ----

  /** The first line and the rest. */
  lemma FirstLine(re: string, s: string)
    requires Newline(s) < |s|
    ensures var k := Newline(s);
            && Lines(re, s) == Print(re, s[..k]) + Lines(re, s[k + 1..])
            && (Fitting(s) <==> Takes(s[..k]) && Fitting(s[k + 1..]))
            && Before(s) == if Takes(s[..k]) then s[..k + 1] + Before(s[k + 1..]) else ""
  {
  }

  lemma NoLine(re: string, s: string)
    requires Newline(s) == |s|
    ensures Lines(re, s) == "" && Before(s) == s && Fitting(s)
  {
  }

  /** A line in front adds itself. */
  lemma LineAndRest(re: string, s: string, rest: string)
    requires Newline(s) + 1 == |s|
    ensures Newline(s + rest) == Newline(s)
    ensures Lines(re, s + rest) == Print(re, s[..|s| - 1]) + Lines(re, rest)
  {
    hide Lines;
    NewlineOf(s, rest);
    FirstLine(re, s + rest);
    assert (s + rest)[..|s| - 1] == s[..|s| - 1] && (s + rest)[|s|..] == rest;
  }

  lemma {:induction false} HeadLine(a: string)
    requires Newline(a) < |a|
    ensures Newline(a[..Newline(a) + 1]) == Newline(a)
    decreases |a|
  {
    if a[0] != '\n' {
      HeadLine(a[1..]);
      var k := Newline(a[1..]);
      assert a[..k + 2][1..] == a[1..][..k + 1];
    }
  }

  /** grep prints the matching lines before the first line that it cannot take, and loses the others. */
  lemma {:induction false} Missed(re: string, s: string)
    ensures Lines(re, s) == Lines(re, Before(s)) + Lines(re, s[|Before(s)|..])
    decreases |s|
  {
    hide Lines, Before, Fitting, Takes;
    var k := Newline(s);
    if k == |s| {
      NoLine(re, s);
      Nothing(re);
      assert s[|s|..] == "";
    } else {
      FirstLine(re, s);
      Nothing(re);
      if Takes(s[..k]) {
        var head, rest := s[..k + 1], s[k + 1..];
        Missed(re, rest);
        HeadLine(s);
        LineAndRest(re, head, Before(rest));
        assert head[..k] == s[..k] && s[|head + Before(rest)|..] == rest[|Before(rest)|..];
      } else {
        assert s[0..] == s;
      }
    }
  }

  /** With lines that it can take only, grep reads on to the end. */
  lemma {:induction false} AllLines(s: string)
    requires Fitting(s)
    ensures Before(s) == s
    decreases |s|
  {
    var k := Newline(s);
    if k < |s| { AllLines(s[k + 1..]); }
  }

  /** The empty pattern matches every line. */
  lemma EmptyMatches(line: string)
    ensures Matches("", line)
  {
    assert At(Parse(""), line, 0, 0);
  }

  /** Otherwise it stops before a line. */
  lemma {:induction false} StopsEarly(s: string)
    requires !Fitting(s)
    ensures Newline(s[|Before(s)|..]) < |s[|Before(s)|..]|
    decreases |s|
  {
    var k := Newline(s);
    if Takes(s[..k]) {
      StopsEarly(s[k + 1..]);
      var head, rest := s[..k + 1], s[k + 1..];
      assert s[|head + Before(rest)|..] == rest[|Before(rest)|..];
    } else {
      assert s[0..] == s;
    }
  }

  /** grep prints all the matching lines of an input, for every pattern, exactly when it can take every
      line of it. */
  lemma PrintsAll(s: string)
    ensures (forall re :: Lines(re, Before(s)) == Lines(re, s)) <==> Fitting(s)
  {
    hide Lines, Before, Fitting, Newline;
    if Fitting(s) {
      AllLines(s);
    } else {
      StopsEarly(s);
      var rest := s[|Before(s)|..];
      Missed("", s);
      FirstLine("", rest);
      EmptyMatches(rest[..Newline(rest)]);
      assert |Lines("", rest)| > 0;
      assert Lines("", Before(s)) != Lines("", s);
    }
  }

  /** One line that does not fit, or has a NUL byte in it, is lost even if it matches. */
  lemma LostLine(re: string, line: string)
    requires '\n' !in line && !Takes(line) && Matches(re, line)
    ensures Lines(re, Before(line + "\n")) == "" && Lines(re, line + "\n") == line + "\n"
  {
    hide Newline, Lines, Before;
    var s := line + "\n";
    assert s[|line|] == '\n' && forall i :: 0 <= i < |line| ==> s[i] in line;
    assert Newline(s) == |line| && s[..|line|] == line && s[|line| + 1..] == "";
    FirstLine(re, s);
    Nothing(re);
  }

  /** So it goes with a line of 1023 letters. */
  lemma TooLong()
    ensures var line := seq(1023, i => 'a');
            Lines("", Before(line + "\n")) == "" && Lines("", line + "\n") == line + "\n"
  {
    var line := seq(1023, i => 'a');
    EmptyMatches(line);
    LostLine("", line);
  }
}
