/** Directories and path names (kernel/fs.c).  Paths and names are without their terminating NUL. */
module Namex {

  const DIRSIZ := 14

  import opened Common

  // ---- Path elements ----

  /** The length of the first element. */
  function Len(path: string): (k: nat)
    ensures k <= |path| && (forall i :: 0 <= i < k ==> path[i] != '/') && (k < |path| ==> path[k] == '/')
  {
    if path == "" || path[0] == '/' then 0 else 1 + Len(path[1..])
  }

  function Cut(name: string): string { if |name| > DIRSIZ then name[..DIRSIZ] else name }

  /** The nonempty parts between slashes, each cut to DIRSIZ. */
  function Elements(path: string): seq<string>
    decreases |path|
  {
    if path == "" then []
    else if path[0] == '/' then Elements(path[1..])
    else [Cut(path[..Len(path)])] + Elements(path[Len(path)..])
  }

  /** What skipelem returns: the first element and the rest of the path, which has no leading slash. */
  ghost predicate Skipped(path: string, r: Option<(string, string)>) {
    && (r.None? <==> Elements(path) == [])
    && (r.Some? ==>
          && Elements(path) == [r.value.0] + Elements(r.value.1) && |r.value.1| < |path|
          && (r.value.1 != "" ==> r.value.1[0] != '/') && (r.value.1 == "" <==> Elements(r.value.1) == []))
  }

  method SkipSlashes(path: string, p: nat) returns (q: nat)
    requires p <= |path|
    ensures p <= q <= |path| && Elements(path[q..]) == Elements(path[p..]) && (q < |path| ==> path[q] != '/')
  {
    q := p;
    while q < |path| && path[q] == '/'
      invariant p <= q <= |path| && Elements(path[q..]) == Elements(path[p..])
    {
      assert path[q..][1..] == path[q + 1..];
      q := q + 1;
    }
  }

  method ElementEnd(path: string, p: nat) returns (q: nat)
    requires p <= |path|
    ensures q == p + Len(path[p..])
  {
    q := p;
    while q < |path| && path[q] != '/'
      invariant p <= q <= |path| && Len(path[p..]) == q - p + Len(path[q..])
    {
      assert path[q..][1..] == path[q + 1..];
      q := q + 1;
    }
  }

  lemma FirstElement(path: string, s: nat)
    requires s < |path| && path[s] != '/'
    ensures var p := s + Len(path[s..]);
            s < p <= |path| && Elements(path[s..]) == [Cut(path[s..p])] + Elements(path[p..])
  {
    var p := s + Len(path[s..]);
    assert path[s..][..p - s] == path[s..p] && path[s..][p - s..] == path[p..];
  }

  lemma NoElement(path: string)
    requires path == "" || path[0] != '/'
    ensures path == "" <==> Elements(path) == []
  {
  }

  /** skipelem; None is the null result. */
  method SkipElem(path: string) returns (r: Option<(string, string)>)
    ensures Skipped(path, r)
  {
    hide Elements, Len;
    assert path[0..] == path;
    var s := SkipSlashes(path, 0);
    NoElement(path[s..]);
    if s == |path| {
      return None;
    }
    FirstElement(path, s);
    var p := ElementEnd(path, s);
    var name := if p - s >= DIRSIZ then path[s..s + DIRSIZ] else path[s..p];
    assert name == Cut(path[s..p]);
    var q := SkipSlashes(path, p);
    NoElement(path[q..]);
    r := Some((name, path[q..]));
  }

  // ---- Directories ----

  /** A directory entry; inum 0 is an empty one. */
  datatype Dirent = Dirent(inum: nat, name: string)

  /** What a directory says a name is: the first entry with that name. */
  function Lookup(entries: seq<Dirent>, name: string): (r: Option<nat>)
    ensures r.Some? ==> r.value > 0
  {
    if entries == [] then None
    else if entries[0].inum > 0 && Cut(entries[0].name) == Cut(name) then Some(entries[0].inum)
    else Lookup(entries[1..], name)
  }

  /** dirlookup's loop. */
  method DirLookup(entries: seq<Dirent>, name: string) returns (r: Option<nat>)
    ensures r == Lookup(entries, name)
  {
    var k := 0;
    assert entries[0..] == entries;
    while k < |entries|
      invariant k <= |entries| && Lookup(entries[k..], name) == Lookup(entries, name)
    {
      if entries[k].inum != 0 && Cut(name) == Cut(entries[k].name) {
        return Some(entries[k].inum);
      }
      assert entries[k..][1..] == entries[k + 1..];
      k := k + 1;
    }
    r := None;
  }

  /** dirlink: None when the name is there already; otherwise the directory says the same as before of
      every other name, and the new inode of this one.  It grows only when it has no empty entry. */
  method DirLink(entries: seq<Dirent>, name: string, inum: nat) returns (r: Option<seq<Dirent>>)
    requires inum > 0
    ensures r.None? <==> Lookup(entries, name).Some?
    ensures r.Some? ==>
            && Lookup(r.value, name) == Some(inum)
            && (forall other :: Cut(other) != Cut(name) ==> Lookup(r.value, other) == Lookup(entries, other))
            && (forall k :: 0 <= k < |entries| && entries[k].inum > 0 ==> k < |r.value| && r.value[k] == entries[k])
            && |r.value| == |entries| + if exists k :: 0 <= k < |entries| && entries[k].inum == 0 then 0 else 1
  {
    var ip := DirLookup(entries, name);
    if ip.Some? {
      return None;
    }
    var k := 0;
    while k < |entries| && entries[k].inum != 0
      invariant k <= |entries| && forall j :: 0 <= j < k ==> entries[j].inum != 0
    {
      k := k + 1;
    }
    var de := Dirent(inum, Cut(name));
    Linked(entries, k, de, name);
    forall other | Cut(other) != Cut(name)
      ensures Lookup(Placed(entries, k, de), other) == Lookup(entries, other)
    {
      Linked(entries, k, de, other);
    }
    r := Some(Placed(entries, k, de));
  }

  /** writei at an entry, or at the end. */
  function Placed(entries: seq<Dirent>, k: nat, de: Dirent): seq<Dirent>
    requires k <= |entries|
  {
    if k == |entries| then entries + [de] else entries[k := de]
  }

  lemma {:induction false} Linked(entries: seq<Dirent>, k: nat, de: Dirent, name: string)
    requires k <= |entries| && (k < |entries| ==> entries[k].inum == 0) && de.inum > 0
    ensures Cut(de.name) == Cut(name) && Lookup(entries, name).None? ==> Lookup(Placed(entries, k, de), name) == Some(de.inum)
    ensures Cut(de.name) != Cut(name) ==> Lookup(Placed(entries, k, de), name) == Lookup(entries, name)
  {
    if entries == [] {
      assert [de][1..] == [];
    } else if k == 0 {
      assert entries[0 := de][1..] == entries[1..];
    } else {
      assert Placed(entries, k, de)[1..] == Placed(entries[1..], k - 1, de);
      Linked(entries[1..], k - 1, de, name);
    }
  }

  // ---- Path names ----

  /** What an inode is, whenever it is looked at. */
  datatype Node = Other | Dir(entries: seq<Dirent>)

  /** Where the elements lead from ip, looking at the tree as it is at times t, t+1, ...: None if one of
      them is looked up in something that is no directory, or is not there. */
  function Resolve(tree: nat -> nat -> Node, t: nat, ip: nat, elems: seq<string>): Option<nat>
    decreases |elems|
  {
    if elems == [] then Some(ip) else
    match tree(t)(ip)
    case Other => None
    case Dir(entries) =>
      var next := Lookup(entries, elems[0]);
      if next.None? then None else Resolve(tree, t + 1, next.value, elems[1..])
  }

  /** For the parent: all elements but the last, and what they lead to must be a directory. */
  function ResolveParent(tree: nat -> nat -> Node, t: nat, ip: nat, elems: seq<string>): Option<(nat, string)> {
    if elems == [] then None else
    var n := |elems| - 1;
    var dir := Resolve(tree, t, ip, elems[..n]);
    if dir.Some? && tree(t + n)(dir.value).Dir? then Some((dir.value, elems[n])) else None
  }

  const ROOTINO := 1

  class References {
    // how many references there are to each inode
    var refs: multiset<nat>

    method IGet(inum: nat)
      modifies this
      ensures refs == old(refs) + multiset{inum}
    {
      refs := refs + multiset{inum};
    }

    method IPut(inum: nat)
      requires inum in refs
      modifies this
      ensures refs == old(refs) - multiset{inum}
    {
      refs := refs - multiset{inum};
    }

    /** namex. */
    method NameX(path: string, parent: bool, cwd: nat, tree: nat -> nat -> Node) returns (r: Option<nat>, name: string)
      requires cwd in refs
      modifies this
      ensures r.Some? ==> refs == old(refs) + multiset{r.value}
      ensures r.None? ==> refs == old(refs)
      ensures var from := if path != "" && path[0] == '/' then ROOTINO else cwd;
              if parent then
                var p := ResolveParent(tree, 0, from, Elements(path));
                (r.Some? <==> p.Some?) && (r.Some? ==> (r.value, name) == p.value)
              else r == Resolve(tree, 0, from, Elements(path))
    {
      hide Elements, Resolve, ResolveParent, Reached, Skipped, Lookup;
      var ip: nat := if path != "" && path[0] == '/' then ROOTINO else cwd;
      ghost var from, all := ip, Elements(path);
      IGet(ip);
      var rest, t := path, 0;
      name := "";
      Begin(tree, from, all);
      assert all[0..] == all;
      var e := SkipElem(rest);
      while e.Some?
        invariant refs == old(refs) + multiset{ip} && Reached(tree, from, all, t, ip)
        invariant t <= |all| && Elements(rest) == all[t..] && (parent && all != [] ==> t < |all|) && Skipped(rest, e)
        decreases |rest|
      {
        NextElement(all, t, rest, e);
        name, rest := e.value.0, e.value.1;
        Onward(tree, from, all, t, ip);
        // ilock(ip)
        var node := tree(t)(ip);
        if node.Other? {
          GiveBack(ip, old(refs));
          return None, name;
        }
        if parent && rest == "" {
          return Some(ip), name;
        }
        var next := DirLookup(node.entries, name);
        if next.None? {
          GiveBack(ip, old(refs));
          return None, name;
        }
        Step(ip, next.value, old(refs));
        ip, t := next.value, t + 1;
        e := SkipElem(rest);
      }
      Arrived(tree, from, all, t, ip, rest, e);
      if parent {
        GiveBack(ip, old(refs));
        return None, name;
      }
      r := Some(ip);
    }

    method GiveBack(ip: nat, ghost base: multiset<nat>)
      requires refs == base + multiset{ip}
      modifies this
      ensures refs == base
    {
      IPut(ip);
    }

    /** The reference that dirlookup took replaces the one on the directory. */
    method Step(ip: nat, next: nat, ghost base: multiset<nat>)
      requires refs == base + multiset{ip}
      modifies this
      ensures refs == base + multiset{next}
    {
      IGet(next);
      IPut(ip);
    }
  }

  lemma NextElement(all: seq<string>, t: nat, rest: string, e: Option<(string, string)>)
    requires t <= |all| && Elements(rest) == all[t..] && Skipped(rest, e) && e.Some?
    ensures t < |all| && e.value.0 == all[t] && Elements(e.value.1) == all[t + 1..] && |e.value.1| < |rest|
    ensures e.value.1 == "" <==> t + 1 == |all|
  {
    hide Elements;
    assert all[t..][0] == all[t] && all[t..][1..] == all[t + 1..];
    assert Elements(rest)[1..] == Elements(e.value.1);
  }

  /** After t elements the walk has come to ip. */
  ghost predicate Reached(tree: nat -> nat -> Node, from: nat, all: seq<string>, t: nat, ip: nat) {
    && t <= |all| && Resolve(tree, 0, from, all) == Resolve(tree, t, ip, all[t..])
    && (t < |all| ==>
          Resolve(tree, 0, from, all[..|all| - 1]) == Resolve(tree, t, ip, all[t..|all| - 1]))
  }

  lemma Begin(tree: nat -> nat -> Node, from: nat, all: seq<string>)
    ensures Reached(tree, from, all, 0, from)
  {
    assert all[0..] == all;
    assert all != [] ==> all[0..|all| - 1] == all[..|all| - 1];
  }

  /** What the next element brings. */
  lemma Onward(tree: nat -> nat -> Node, from: nat, all: seq<string>, t: nat, ip: nat)
    requires Reached(tree, from, all, t, ip) && t < |all|
    ensures tree(t)(ip).Other? ==> Resolve(tree, 0, from, all).None? && ResolveParent(tree, 0, from, all).None?
    ensures tree(t)(ip).Dir? && t == |all| - 1 ==> ResolveParent(tree, 0, from, all) == Some((ip, all[t]))
    ensures tree(t)(ip).Dir? ==>
            match Lookup(tree(t)(ip).entries, all[t])
            case None => Resolve(tree, 0, from, all).None? && (t < |all| - 1 ==> ResolveParent(tree, 0, from, all).None?)
            case Some(next) => Reached(tree, from, all, t + 1, next)
  {
    hide Lookup;
    var n := |all| - 1;
    assert all[t..][0] == all[t] && all[t..][1..] == all[t + 1..];
    if t < n {
      assert all[t..n][0] == all[t] && all[t..n][1..] == all[t + 1..n];
    } else {
      assert all[t..n] == [];
    }
  }

  lemma Arrived(tree: nat -> nat -> Node, from: nat, all: seq<string>, t: nat, ip: nat,
                rest: string, e: Option<(string, string)>)
    requires Reached(tree, from, all, t, ip) && Elements(rest) == all[t..] && Skipped(rest, e) && e.None?
    ensures t == |all|
    ensures Resolve(tree, 0, from, all) == Some(ip)
    ensures all == [] ==> ResolveParent(tree, 0, from, all) == None
  {
  }
}
