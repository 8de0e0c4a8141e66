/** File names and paths (kernel/fs.c:521-622, kernel/string.c): bytes up to a NUL, names cut to 14
    bytes, and the components of a path. */
module Paths {
  import opened Basics

  const DIRSIZ: nat := 14
  const SLASH: nat := 47

  /** The byte at place `i` of a C string, which ends with NULs. */
  function ByteAt(s: seq<nat>, i: nat): nat { if i < |s| then s[i] else 0 }

  /** A C string of at most `n` bytes. */
  function CStr(s: seq<nat>, n: nat): (r: seq<nat>)
    ensures |r| <= n && 0 !in r && forall i: nat | i < |r| :: r[i] == ByteAt(s, i)
    ensures |r| < n ==> ByteAt(s, |r|) == 0
  {
    if n == 0 || ByteAt(s, 0) == 0 then [] else [s[0]] + CStr(s[1..], n - 1)
  }

  /** What directories go by. */
  function Key(name: seq<nat>): seq<nat> { CStr(name, DIRSIZ) }

  /** strncmp (kernel/string.c:60-68): 0 exactly for equal strings of at most `n` bytes. */
  method Strncmp(p: seq<nat>, q: seq<nat>, n: nat) returns (r: int)
    ensures r == 0 <==> CStr(p, n) == CStr(q, n)
  {
    var i := 0;
    while i < n && ByteAt(p, i) != 0 && ByteAt(p, i) == ByteAt(q, i)
      invariant 0 <= i <= n && forall j: nat | j < i :: ByteAt(p, j) != 0 && ByteAt(p, j) == ByteAt(q, j)
    {
      i := i + 1;
    }
    SameUpTo(p, q, n, i);
    if i == n {
      return 0;
    }
    r := ByteAt(p, i) - ByteAt(q, i);
  }

  lemma SameUpTo(p: seq<nat>, q: seq<nat>, n: nat, i: nat)
    requires i <= n && forall j: nat | j < i :: ByteAt(p, j) != 0 && ByteAt(p, j) == ByteAt(q, j)
    requires i < n ==> ByteAt(p, i) == 0 || ByteAt(p, i) != ByteAt(q, i)
    ensures CStr(p, n) == CStr(q, n) <==> i == n || ByteAt(p, i) == ByteAt(q, i)
  {
    var a, b := CStr(p, n), CStr(q, n);
    assert |a| >= i && |b| >= i;
    if i < n {
      if ByteAt(p, i) == 0 { Stops(p, n, i); }
      if ByteAt(q, i) == 0 { Stops(q, n, i); }
    }
    assert |a| == |b| == i ==> a == b;
  }

  lemma {:induction false} Stops(p: seq<nat>, n: nat, i: nat)
    requires i < n && ByteAt(p, i) == 0
    ensures |CStr(p, n)| <= i
  {
    if ByteAt(p, 0) != 0 { Stops(p[1..], n - 1, i - 1); }
  }

  /** strncpy (kernel/string.c:70-81): the string, filled up with NULs. */
  method Strncpy(t: seq<nat>, n: nat) returns (s: seq<nat>)
    ensures |s| == n && CStr(s, n) == CStr(t, n)
    ensures forall i: nat | i < n :: s[i] == 0 || (i < |t| && s[i] == t[i] && forall j: nat | j <= i :: s[j] != 0)
  {
    s := [];
    var i := 0;
    while i < n && ByteAt(t, i) != 0
      invariant 0 <= i <= n && |s| == i && forall j: nat | j < i :: s[j] == ByteAt(t, j) != 0
    {
      s := s + [ByteAt(t, i)];
      i := i + 1;
    }
    ghost var k := i;
    while i < n
      invariant k <= i <= n && |s| == i && (forall j: nat | j < k :: s[j] == ByteAt(t, j) != 0)
              && forall j: nat | k <= j < i :: s[j] == 0
      invariant k < n ==> ByteAt(t, k) == 0
    {
      s := s + [0];
      i := i + 1;
    }
    SameUpTo(s, t, n, k);
  }

  /** The place of the first slash, or the length. */
  function FirstSlash(p: seq<nat>): (i: nat)
    ensures i <= |p| && (i < |p| ==> p[i] == SLASH) && forall j: nat | j < i :: p[j] != SLASH
  {
    if p == [] || p[0] == SLASH then 0 else 1 + FirstSlash(p[1..])
  }

  /** The pieces between slashes. */
  function Split(p: seq<nat>): seq<seq<nat>>
    decreases |p|
  {
    var i := FirstSlash(p);
    if i == |p| then [p] else [p[..i]] + Split(p[i + 1..])
  }

  function NonEmpty(l: seq<seq<nat>>): seq<seq<nat>> {
    if l == [] then [] else if l[0] == [] then NonEmpty(l[1..]) else [l[0]] + NonEmpty(l[1..])
  }

  /** The nonempty slash-separated components of a path. */
  function Components(p: seq<nat>): seq<seq<nat>> { NonEmpty(Split(p)) }

  /** Leading slashes do not matter. */
  lemma SkipSlash(p: seq<nat>)
    requires p != [] && p[0] == SLASH
    ensures Components(p) == Components(p[1..])
  {
    assert FirstSlash(p) == 0 && p[..0] == [];
    assert ([p[..0]] + Split(p[1..]))[1..] == Split(p[1..]);
  }

  /** The first component ends at the first slash. */
  lemma TakeElem(p: seq<nat>)
    requires p != [] && p[0] != SLASH
    ensures var i := FirstSlash(p); i > 0 && Components(p) == [p[..i]] + Components(p[i..])
  {
    var i := FirstSlash(p);
    if i == |p| {
      assert p[i..] == [] && p[..i] == p && Split(p) == [p] && Components([]) == [];
      assert NonEmpty([p]) == [p] + NonEmpty([]);
    } else {
      SkipSlash(p[i..]);
      assert p[i..][1..] == p[i + 1..];
      assert ([p[..i]] + Split(p[i + 1..]))[1..] == Split(p[i + 1..]);
    }
  }

  lemma {:induction false} SlashIs(p: seq<nat>, i: nat)
    requires i <= |p| && (i < |p| ==> p[i] == SLASH) && forall j: nat | j < i :: p[j] != SLASH
    ensures FirstSlash(p) == i
  {
    if i > 0 { SlashIs(p[1..], i - 1); }
  }

  /** A path with no leading slash has no component exactly when it is empty. */
  lemma NoComponent(p: seq<nat>)
    requires p != [] ==> p[0] != SLASH
    ensures Components(p) == [] <==> p == []
  {
    if p != [] { TakeElem(p); } else { assert Split([]) == [[]]; }
  }

  /** skipelem (kernel/fs.c:599-622): takes exactly the first component off the path, cut to DIRSIZ bytes,
      and the slashes after it. */
  method Skipelem(path: seq<nat>) returns (rest: Option<seq<nat>>, name: seq<nat>)
    requires 0 !in path
    ensures rest.None? <==> Components(path) == []
    ensures rest.Some? ==> Components(path) != [] && Components(rest.value) == Components(path)[1..] && 0 !in rest.value
    ensures rest.Some? ==> (rest.value == [] <==> |Components(path)| == 1) && |rest.value| < |path|
    ensures rest.Some? ==> Key(name) == Key(Components(path)[0])
  {
    hide Components, CStr, FirstSlash;
    var s := SkipSlashes(path, 0);
    assert path[0..] == path;
    NoComponent(path[s..]);
    if s == |path| {
      return None, [];
    }
    var i := SkipName(path, s);
    ghost var elem := path[s..i];
    name := if i - s >= DIRSIZ then path[s..s + DIRSIZ] else path[s..i] + [0];
    CutName(elem, name);
    i := SkipSlashes(path, i);
    NoComponent(path[i..]);
    rest := Some(path[i..]);
  }

  method SkipSlashes(path: seq<nat>, from: nat) returns (i: nat)
    requires from <= |path|
    ensures from <= i <= |path| && Components(path[i..]) == Components(path[from..])
    ensures (i < |path| ==> path[i] != SLASH)
  {
    hide Components;
    i := from;
    while i < |path| && path[i] == SLASH
      invariant from <= i <= |path| && Components(path[i..]) == Components(path[from..])
    {
      SkipSlash(path[i..]);
      assert path[i..][1..] == path[i + 1..];
      i := i + 1;
    }
  }

  method SkipName(path: seq<nat>, s: nat) returns (i: nat)
    requires s < |path| && path[s] != SLASH
    ensures s < i <= |path| && Components(path[s..]) == [path[s..i]] + Components(path[i..])
  {
    hide Components;
    i := s;
    while i < |path| && path[i] != SLASH
      invariant s <= i <= |path| && forall j: nat | s <= j < i :: path[j] != SLASH
    {
      i := i + 1;
    }
    SlashIs(path[s..], i - s);
    TakeElem(path[s..]);
    assert path[s..][..i - s] == path[s..i] && path[s..][i - s..] == path[i..];
  }

  lemma CutName(elem: seq<nat>, name: seq<nat>)
    requires 0 !in elem && name == if |elem| >= DIRSIZ then elem[..DIRSIZ] else elem + [0]
    ensures Key(name) == Key(elem)
  {
    var n := if |elem| >= DIRSIZ then DIRSIZ else |elem|;
    forall j: nat | j < n ensures ByteAt(elem, j) != 0 && ByteAt(elem, j) == ByteAt(name, j) { assert elem[j] in elem; }
    SameUpTo(name, elem, DIRSIZ, n);
  }
}
