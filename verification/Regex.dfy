/** The pattern matcher of grep (user/grep.c, after chapter 9 of The Practice of Programming).  Strings
    are without their terminating NUL. */
module Regex {

  // ---- What patterns mean ----

  /** One character, or any number of them; '.' stands for any character. */
  datatype Item = One(c: char) | Many(c: char)

  /** Items in a row, and whether a final $ ties them to the end of the text. */
  datatype Pattern = Pattern(items: seq<Item>, end: bool)

  predicate Fits(c: char, x: char) { c == '.' || c == x }

  /** The string w is made of what the items stand for, one after the other. */
  ghost predicate Spells(items: seq<Item>, w: string) {
    if items == [] then w == ""
    else match items[0]
      case One(c) => w != "" && Fits(c, w[0]) && Spells(items[1..], w[1..])
      case Many(c) => exists k: nat :: k <= |w| && Run(c, w[..k]) && Spells(items[1..], w[k..])
  }

  predicate Run(c: char, w: string) { forall i :: 0 <= i < |w| ==> Fits(c, w[i]) }

  /** How a pattern is read. */
  function Parse(re: string): Pattern {
    if re == "" then Pattern([], false)
    else if |re| > 1 && re[1] == '*' then Then(Many(re[0]), Parse(re[2..]))
    else if re == "$" then Pattern([], true)
    else Then(One(re[0]), Parse(re[1..]))
  }

  function Then(item: Item, p: Pattern): Pattern { p.(items := [item] + p.items) }

  /** Some part of the text from i on, as far as j, is spelled by the pattern. */
  ghost predicate At(p: Pattern, text: string, i: nat, j: nat) {
    i <= j <= |text| && Spells(p.items, text[i..j]) && (p.end ==> j == |text|)
  }

  ghost predicate Starts(p: Pattern, text: string) { exists j: nat :: At(p, text, 0, j) }

  /** The whole pattern: a leading ^ ties the match to the start of the text. */
  ghost predicate Matches(re: string, text: string) {
    if re != "" && re[0] == '^' then Starts(Parse(re[1..]), text)
    else exists i: nat, j: nat :: At(Parse(re), text, i, j)
  }

  // ---- The matcher ----

  /** matchhere. */
  method MatchHere(re: string, text: string) returns (r: bool)
    ensures r <==> Starts(Parse(re), text)
    decreases |re|, 0
  {
    if re == "" {
      assert At(Parse(re), text, 0, 0);
      return true;
    }
    if |re| > 1 && re[1] == '*' {
      r := MatchStar(re[0], re[2..], text);
      return;
    }
    if re == "$" {
      EndOnly(text);
      return text == "";
    }
    if text != "" && (re[0] == '.' || re[0] == text[0]) {
      r := MatchHere(re[1..], text[1..]);
      OneThen(re[0], Parse(re[1..]), text);
      return;
    }
    OneThen(re[0], Parse(re[1..]), text);
    return false;
  }

  /** matchstar. */
  method MatchStar(c: char, re: string, text: string) returns (r: bool)
    ensures r <==> Starts(Then(Many(c), Parse(re)), text)
    decreases |re| + 1, 1
  {
    var t := 0;
    ManyThen(c, Parse(re), text);
    while true
      invariant 0 <= t <= |text| && Run(c, text[..t])
      invariant forall k: nat :: k < t ==> !Starts(Parse(re), text[k..])
      decreases |text| - t
    {
      var here := MatchHere(re, text[t..]);
      if here {
        return true;
      }
      if t == |text| || (text[t] != c && c != '.') {
        return false;
      }
      assert text[..t + 1] == text[..t] + [text[t]];
      t := t + 1;
    }
  }

  /** match. */
  method Match(re: string, text: string) returns (r: bool)
    ensures r <==> Matches(re, text)
  {
    if re != "" && re[0] == '^' {
      r := MatchHere(re[1..], text);
      return;
    }
    var t := 0;
    while true
      invariant 0 <= t <= |text|
      invariant forall k: nat :: k < t ==> !Starts(Parse(re), text[k..])
      decreases |text| - t
    {
      var here := MatchHere(re, text[t..]);
      if here {
        Somewhere(Parse(re), text, t);
        return true;
      }
      if t == |text| {
        Nowhere(Parse(re), text);
        return false;
      }
      t := t + 1;
    }
  }

  // ---- Lemmas ----

  lemma EndOnly(text: string)
    ensures Starts(Parse("$"), text) <==> text == ""
  {
    assert Parse("$") == Pattern([], true);
    if text == "" { assert At(Parse("$"), text, 0, 0); }
  }

  /** A pattern that starts with one character. */
  lemma OneThen(c: char, p: Pattern, text: string)
    ensures Starts(Then(One(c), p), text) <==> text != "" && Fits(c, text[0]) && Starts(p, text[1..])
  {
    var q := Then(One(c), p);
    assert q.items[1..] == p.items;
    forall j: nat
      ensures At(q, text, 0, j) <==> j > 0 && text != "" && Fits(c, text[0]) && At(p, text[1..], 0, j - 1)
    {
      if 0 < j <= |text| { assert text[0..j][1..] == text[1..][0..j - 1]; }
    }
    if text != "" && Starts(p, text[1..]) {
      var j: nat :| At(p, text[1..], 0, j);
      assert At(q, text, 0, j + 1) <==> Fits(c, text[0]) && At(p, text[1..], 0, j);
    }
  }

  /** A pattern that starts with a star: the rest matches after some run of the starred character. */
  lemma ManyThen(c: char, p: Pattern, text: string)
    ensures Starts(Then(Many(c), p), text) <==>
            exists k: nat :: k <= |text| && Run(c, text[..k]) && Starts(p, text[k..])
  {
    var q := Then(Many(c), p);
    assert q.items[1..] == p.items;
    if Starts(q, text) {
      var j: nat :| At(q, text, 0, j);
      var w := text[0..j];
      var k: nat :| k <= |w| && Run(c, w[..k]) && Spells(p.items, w[k..]);
      assert w[..k] == text[..k] && w[k..] == text[k..][0..j - k];
      assert At(p, text[k..], 0, j - k);
    }
    if k: nat :| k <= |text| && Run(c, text[..k]) && Starts(p, text[k..]) {
      var j: nat :| At(p, text[k..], 0, j);
      var w := text[0..k + j];
      assert w[..k] == text[..k] && w[k..] == text[k..][0..j];
      assert At(q, text, 0, k + j);
    }
  }

  lemma Somewhere(p: Pattern, text: string, t: nat)
    requires t <= |text| && Starts(p, text[t..])
    ensures exists i: nat, j: nat :: At(p, text, i, j)
  {
    var j: nat :| At(p, text[t..], 0, j);
    assert text[t..][0..j] == text[t..t + j];
    assert At(p, text, t, t + j);
  }

  lemma Nowhere(p: Pattern, text: string)
    requires forall k: nat :: k <= |text| ==> !Starts(p, text[k..])
    ensures !exists i: nat, j: nat :: At(p, text, i, j)
  {
    forall i: nat, j: nat
      ensures !At(p, text, i, j)
    {
      if i <= j <= |text| {
        assert text[i..][0..j - i] == text[i..j];
        assert At(p, text, i, j) <==> At(p, text[i..], 0, j - i);
      }
    }
  }
}
