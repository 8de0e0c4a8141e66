/** The shell's parser (user/sh.c:328-447) against its grammar: a line is accepted exactly when it can be derived, and
    then the tree is that of the derivation; every other line is refused.

        line  = pipe { "&" } [ ";" line ]
        pipe  = exec [ "|" pipe ]
        exec  = "(" line ")" { redirection }  |  { word | redirection }     with at most nine words */
module ShellGrammar {
  import opened ShellSyntax
  import opened ShellBrief

  /** Words and redirections of a simple command, in any order. */
  datatype Item<W> = Arg(w: W) | Red(file: W, mode: Mode)

  datatype LineSyn<W> =
    | LastLine(pipe: PipeSyn<W>, backs: nat)
    | MoreLine(pipe: PipeSyn<W>, backs: nat, more: LineSyn<W>)
  datatype PipeSyn<W> = LastPipe(exec: ExecSyn<W>) | MorePipe(exec: ExecSyn<W>, more: PipeSyn<W>)
  datatype ExecSyn<W> = Block(line: LineSyn<W>, redirs: seq<(W, Mode)>) | Simple(items: seq<Item<W>>)

  // What a derivation spells.

  function ItemToks<W>(items: seq<Item<W>>): seq<Tok<W>> {
    if items == [] then []
    else (match items[0] case Arg(w) => [Word(w)] case Red(f, m) => [ModeTok(m), Word(f)]) + ItemToks(items[1..])
  }

  function Amps<W>(n: nat): seq<Tok<W>> { seq(n, _ => Sym('&')) }

  function LineToks<W>(l: LineSyn<W>): seq<Tok<W>> {
    PipeToks(l.pipe) + (Amps(l.backs) + (if l.MoreLine? then [Sym(';')] + LineToks(l.more) else []))
  }

  function PipeToks<W>(p: PipeSyn<W>): seq<Tok<W>> {
    ExecToks(p.exec) + (if p.MorePipe? then [Sym('|')] + PipeToks(p.more) else [])
  }

  function ExecToks<W>(x: ExecSyn<W>): seq<Tok<W>> {
    match x
    case Block(l, redirs) => [Sym('(')] + (LineToks(l) + ([Sym(')')] + RedirToks(redirs)))
    case Simple(items) => ItemToks(items)
  }

  // What it means.

  function ItemArgs<W>(items: seq<Item<W>>): seq<W> {
    if items == [] then [] else (if items[0].Arg? then [items[0].w] else []) + ItemArgs(items[1..])
  }

  function ItemRedirs<W>(items: seq<Item<W>>): seq<(W, Mode)> {
    if items == [] then []
    else (if items[0].Red? then [(items[0].file, items[0].mode)] else []) + ItemRedirs(items[1..])
  }

  function InBack<W>(cmd: Cmd<W>, n: nat): Cmd<W>
    decreases n
  {
    if n == 0 then cmd else InBack(Back(cmd), n - 1)
  }

  function LineTree<W>(l: LineSyn<W>): Cmd<W> {
    var c := InBack(PipeTree(l.pipe), l.backs);
    if l.MoreLine? then List(c, LineTree(l.more)) else c
  }

  function PipeTree<W>(p: PipeSyn<W>): Cmd<W> {
    if p.MorePipe? then Pipe(ExecTree(p.exec), PipeTree(p.more)) else ExecTree(p.exec)
  }

  /** The first redirection is the innermost. */
  function ExecTree<W>(x: ExecSyn<W>): Cmd<W> {
    match x
    case Block(l, redirs) => Wrap(LineTree(l), redirs)
    case Simple(items) => Wrap(Exec(ItemArgs(items)), ItemRedirs(items))
  }

  /** At most nine words in each simple command. */
  predicate LineFits<W>(l: LineSyn<W>) { PipeFits(l.pipe) && (l.MoreLine? ==> LineFits(l.more)) }

  predicate PipeFits<W>(p: PipeSyn<W>) { ExecFits(p.exec) && (p.MorePipe? ==> PipeFits(p.more)) }

  predicate ExecFits<W>(x: ExecSyn<W>) {
    match x
    case Block(l, _) => LineFits(l)
    case Simple(items) => |ItemArgs(items)| < MAXARGS
  }

  // Simple commands.

  /** parseexec in mid-course, before redirections. */
  function Onward<W>(args: seq<W>, list: seq<(W, Mode)>, toks: seq<Tok<W>>): Result<W> {
    var r := TakeRedirs(list, toks);
    if r.Missing? then Fail(MissingFile) else ParseArgs(args, r.list, r.rest)
  }

  lemma OnwardRed<W>(args: seq<W>, list: seq<(W, Mode)>, f: W, m: Mode, tail: seq<Tok<W>>)
    ensures Onward(args, list, [ModeTok(m), Word(f)] + tail) == Onward(args, list + [(f, m)], tail)
  {
    hide ParseArgs;
    var toks := [ModeTok(m), Word(f)] + tail;
    assert toks[0] == ModeTok(m) && toks[1] == Word(f) && toks[2..] == tail && ModeOf(toks[0]) == m;
    assert Starts(toks, "<>");
  }

  lemma OnwardArg<W>(args: seq<W>, list: seq<(W, Mode)>, w: W, tail: seq<Tok<W>>)
    ensures Onward(args, list, [Word(w)] + tail) ==
              if |args| + 1 >= MAXARGS then Fail(TooManyArgs) else Onward(args + [w], list, tail)
  {
    var toks := [Word(w)] + tail;
    assert toks[0] == Word(w) && toks[1..] == tail && !Starts(toks, "<>") && !Starts(toks, "|)&;");
    assert TakeRedirs(list, toks) == Redirs(list, toks);
    assert ParseArgs(args, list, toks) ==
           if |args| + 1 >= MAXARGS then Fail(TooManyArgs) else Onward(args + [w], list, tail);
  }

  lemma OnwardEnd<W>(args: seq<W>, list: seq<(W, Mode)>, rest: seq<Tok<W>>)
    requires AfterExec(rest)
    ensures Onward(args, list, rest) == Done(Wrap(Exec(args), list), rest)
  {
  }

  /** Words and redirections are collected in their order, whatever follows them. */
  lemma {:induction false} OnwardItems<W>(args: seq<W>, list: seq<(W, Mode)>, items: seq<Item<W>>, tail: seq<Tok<W>>)
    requires |args| + |ItemArgs(items)| < MAXARGS
    ensures Onward(args, list, ItemToks(items) + tail) ==
              Onward(args + ItemArgs(items), list + ItemRedirs(items), tail)
    decreases |items|
  {
    hide Onward, ItemToks, ItemArgs, ItemRedirs;
    if items == [] {
      NoItems(items, tail);
      assert args + ItemArgs(items) == args && list + ItemRedirs(items) == list;
    } else {
      var more := items[1..];
      var next := ItemToks(more) + tail;
      FirstItem(items, tail);
      match items[0]
      case Arg(w) =>
        OnwardArg(args, list, w, next);
        OnwardItems(args + [w], list, more, tail);
        assert args + [w] + ItemArgs(more) == args + ItemArgs(items);
      case Red(f, m) =>
        OnwardRed(args, list, f, m, next);
        OnwardItems(args, list + [(f, m)], more, tail);
        assert list + [(f, m)] + ItemRedirs(more) == list + ItemRedirs(items);
    }
  }

  lemma NoItems<W>(items: seq<Item<W>>, tail: seq<Tok<W>>)
    requires items == []
    ensures ItemToks(items) + tail == tail && ItemArgs(items) == [] && ItemRedirs(items) == []
  {
  }

  lemma FirstItem<W>(items: seq<Item<W>>, tail: seq<Tok<W>>)
    requires items != []
    ensures var it, more := items[0], items[1..];
            && ItemToks(items) + tail ==
               (if it.Arg? then [Word(it.w)] else [ModeTok(it.mode), Word(it.file)]) + (ItemToks(more) + tail)
            && ItemArgs(items) == (if it.Arg? then [it.w] + ItemArgs(more) else ItemArgs(more))
            && ItemRedirs(items) == (if it.Red? then [(it.file, it.mode)] + ItemRedirs(more) else ItemRedirs(more))
  {
  }

  lemma ExecOnward<W>(toks: seq<Tok<W>>)
    requires !Starts(toks, "(")
    ensures ParseExec(toks) == Onward([], [], toks)
  {
  }

  lemma ItemsStart<W>(items: seq<Item<W>>, tail: seq<Tok<W>>)
    ensures items != [] ==> !Starts(ItemToks(items) + tail, "(") && !Starts(ItemToks(items) + tail, "|)&;")
    ensures items == [] ==> ItemToks(items) + tail == tail
  {
    if items != [] {
      var toks := ItemToks(items) + tail;
      assert toks[0] == if items[0].Arg? then Word(items[0].w) else ModeTok(items[0].mode);
    }
  }

  lemma NoneBefore<W>(items: seq<Item<W>>)
    ensures [] + ItemArgs(items) == ItemArgs(items) && [] + ItemRedirs(items) == ItemRedirs(items)
  {
  }

  /** A simple command is read with its redirections wherever they stand among the words. */
  lemma SimpleRead<W>(items: seq<Item<W>>, rest: seq<Tok<W>>)
    requires AfterExec(rest) && |ItemArgs(items)| < MAXARGS
    ensures ParseExec(ItemToks(items) + rest) == Done(Wrap(Exec(ItemArgs(items)), ItemRedirs(items)), rest)
  {
    hide ParseExec, Onward, Starts;
    ItemsStart(items, rest);
    NotOpen(rest);
    ExecOnward(ItemToks(items) + rest);
    OnwardItems([], [], items, rest);
    NoneBefore(items);
    OnwardEnd(ItemArgs(items), ItemRedirs(items), rest);
  }

  lemma NotOpen<W>(rest: seq<Tok<W>>)
    requires AfterExec(rest)
    ensures !Starts(rest, "(")
  {
  }

  /** The tenth word is refused. */
  lemma TenthWord<W>(items: seq<Item<W>>, w: W, rest: seq<Tok<W>>)
    requires |ItemArgs(items)| == MAXARGS - 1
    ensures ParseExec(ItemToks(items) + ([Word(w)] + rest)) == Fail(TooManyArgs)
  {
    hide ParseExec, Onward;
    var tail := [Word(w)] + rest;
    ItemsStart(items, tail);
    ExecOnward(ItemToks(items) + tail);
    OnwardItems([], [], items, tail);
    NoneBefore(items);
    OnwardArg(ItemArgs(items), ItemRedirs(items), w, rest);
  }

  /** A redirection sign without a word is refused. */
  lemma NoFile<W>(items: seq<Item<W>>, m: Mode, rest: seq<Tok<W>>)
    requires |ItemArgs(items)| < MAXARGS && (rest == [] || !rest[0].Word?)
    ensures ParseExec(ItemToks(items) + ([ModeTok(m)] + rest)) == Fail(MissingFile)
  {
    hide ParseExec, ParseArgs;
    var tail := [ModeTok(m)] + rest;
    assert tail[0] == ModeTok(m) && tail[1..] == rest && Starts(tail, "<>") && !Starts(tail, "(");
    ItemsStart(items, tail);
    ExecOnward(ItemToks(items) + tail);
    OnwardItems([], [], items, tail);
  }

  /** So is a parenthesis that opens after a word or a redirection. */
  lemma LateParen<W>(items: seq<Item<W>>, rest: seq<Tok<W>>)
    requires items != [] && |ItemArgs(items)| < MAXARGS
    ensures ParseExec(ItemToks(items) + ([Sym('(')] + rest)) == Fail(Syntax)
  {
    hide ParseExec;
    var tail := [Sym('(')] + rest;
    assert tail[0] == Sym('(') && !Starts(tail, "<>") && !Starts(tail, "|)&;");
    ItemsStart(items, tail);
    ExecOnward(ItemToks(items) + tail);
    OnwardItems([], [], items, tail);
  }

  /** What parseexec accepts is a sequence of words and redirections, up to a token that ends it. */
  lemma {:induction false} OnwardSound<W>(args: seq<W>, list: seq<(W, Mode)>, toks: seq<Tok<W>>)
    returns (items: seq<Item<W>>)
    requires |args| < MAXARGS && Onward(args, list, toks).Done?
    ensures var r := Onward(args, list, toks);
            && toks == ItemToks(items) + r.rest && |args| + |ItemArgs(items)| < MAXARGS
            && r.cmd == Wrap(Exec(args + ItemArgs(items)), list + ItemRedirs(items))
    decreases |toks|
  {
    hide Onward, Wrap, ItemToks, ItemArgs, ItemRedirs;
    var rest := Onward(args, list, toks).rest;
    if AfterExec(toks) {
      items := [];
      NoItems(items, toks);
      OnwardEnd(args, list, toks);
      assert args + ItemArgs(items) == args && list + ItemRedirs(items) == list;
    } else if toks[0].Word? {
      var w, tail := toks[0].w, toks[1..];
      assert toks == [Word(w)] + tail;
      OnwardArg(args, list, w, tail);
      var more := OnwardSound(args + [w], list, tail);
      items := [Arg(w)] + more;
      assert items[1..] == more;
      FirstItem(items, rest);
      assert args + [w] + ItemArgs(more) == args + ItemArgs(items);
    } else {
      NextRed(args, list, toks);
      var f, m, tail := toks[1].w, ModeOf(toks[0]), toks[2..];
      assert toks == [ModeTok(m), Word(f)] + tail;
      OnwardRed(args, list, f, m, tail);
      var more := OnwardSound(args, list + [(f, m)], tail);
      items := [Red(f, m)] + more;
      assert items[1..] == more;
      FirstItem(items, rest);
      assert list + [(f, m)] + ItemRedirs(more) == list + ItemRedirs(items);
    }
  }

  lemma NextRed<W>(args: seq<W>, list: seq<(W, Mode)>, toks: seq<Tok<W>>)
    requires Onward(args, list, toks).Done? && !AfterExec(toks) && !toks[0].Word?
    ensures |toks| >= 2 && toks[1].Word? && toks[0] == ModeTok(ModeOf(toks[0]))
  {
  }

  // Redirections after a block, and ampersands.

  lemma {:induction false} RedirsSound<W>(list: seq<(W, Mode)>, toks: seq<Tok<W>>) returns (redirs: seq<(W, Mode)>)
    requires TakeRedirs(list, toks).Redirs?
    ensures var r := TakeRedirs(list, toks); toks == RedirToks(redirs) + r.rest && r.list == list + redirs
    decreases |toks|
  {
    if !Starts(toks, "<>") {
      redirs := [];
      assert list + redirs == list;
    } else {
      hide RedirToks;
      var p := (toks[1].w, ModeOf(toks[0]));
      assert toks == [ModeTok(p.1), Word(p.0)] + toks[2..];
      var more := RedirsSound(list + [p], toks[2..]);
      redirs := [p] + more;
      RedirFirst(p, more, TakeRedirs(list, toks).rest);
      assert list + [p] + more == list + redirs;
    }
  }

  lemma RedirFirst<W>(p: (W, Mode), more: seq<(W, Mode)>, tail: seq<Tok<W>>)
    ensures RedirToks([p] + more) + tail == [ModeTok(p.1), Word(p.0)] + (RedirToks(more) + tail)
  {
    assert ([p] + more)[1..] == more;
  }

  lemma {:induction false} BacksSound<W>(cmd: Cmd<W>, toks: seq<Tok<W>>) returns (n: nat)
    ensures var r := Backs(cmd, toks); toks == Amps(n) + r.1 && r.0 == InBack(cmd, n)
    decreases |toks|
  {
    if Starts(toks, "&") {
      assert toks == [Sym('&')] + toks[1..];
      n := BacksSound(Back(cmd), toks[1..]);
      n := n + 1;
      assert Amps<W>(n) == [Sym('&')] + Amps(n - 1);
    } else {
      n := 0;
    }
  }

  lemma {:induction false} BacksRead<W>(cmd: Cmd<W>, n: nat, rest: seq<Tok<W>>)
    requires !Starts(rest, "&")
    ensures Backs(cmd, Amps(n) + rest) == (InBack(cmd, n), rest)
    decreases n
  {
    var toks := Amps(n) + rest;
    if n == 0 {
      assert toks == rest;
    } else {
      assert toks[0] == Sym('&') && toks[1..] == Amps(n - 1) + rest && Starts(toks, "&");
      BacksRead(Back(cmd), n - 1, rest);
    }
  }

  // Every derivation is read.

  lemma {:induction false} ExecDerived<W>(x: ExecSyn<W>, rest: seq<Tok<W>>)
    requires ExecFits(x) && AfterExec(rest)
    ensures ParseExec(ExecToks(x) + rest) == Done(ExecTree(x), rest)
    decreases x
  {
    match x
    case Block(l, redirs) =>
      BlockDerived(l, redirs, rest);
    case Simple(items) =>
      SimpleRead(items, rest);
  }

  lemma {:induction false} BlockDerived<W>(l: LineSyn<W>, redirs: seq<(W, Mode)>, rest: seq<Tok<W>>)
    requires LineFits(l) && AfterExec(rest)
    ensures ParseExec(ExecToks(Block(l, redirs)) + rest) == Done(Wrap(LineTree(l), redirs), rest)
    decreases l, 1
  {
    hide ParseLine, LineToks, LineTree, LineFits, TakeRedirs, Wrap;
    var tail := RedirToks(redirs) + rest;
    var close := [Sym(')')] + tail;
    var toks := ExecToks(Block(l, redirs)) + rest;
    assert toks[0] == Sym('(') && toks[1..] == LineToks(l) + close;
    LineDerived(l, close);
    assert close[1..] == tail;
    NotSign(rest);
    RedirsTaken([], redirs, rest);
    assert [] + redirs == redirs;
  }

  lemma NotSign<W>(rest: seq<Tok<W>>)
    requires AfterExec(rest)
    ensures !Starts(rest, "<>")
  {
  }

  lemma {:induction false} PipeDerived<W>(p: PipeSyn<W>, rest: seq<Tok<W>>)
    requires PipeFits(p) && AfterPipe(rest)
    ensures ParsePipe(PipeToks(p) + rest) == Done(PipeTree(p), rest)
    decreases p
  {
    hide ParseExec;
    if p.MorePipe? {
      var tail := [Sym('|')] + (PipeToks(p.more) + rest);
      assert PipeToks(p) + rest == ExecToks(p.exec) + tail && tail[1..] == PipeToks(p.more) + rest;
      ExecDerived(p.exec, tail);
      PipeDerived(p.more, rest);
    } else {
      assert PipeToks(p) + rest == ExecToks(p.exec) + rest;
      ExecDerived(p.exec, rest);
    }
  }

  lemma {:induction false} LineDerived<W>(l: LineSyn<W>, rest: seq<Tok<W>>)
    requires LineFits(l) && Ends(rest)
    ensures ParseLine(LineToks(l) + rest) == Done(LineTree(l), rest)
    decreases l, 0
  {
    hide ParsePipe, PipeToks, PipeTree, PipeFits;
    var after := if l.MoreLine? then [Sym(';')] + (LineToks(l.more) + rest) else rest;
    assert LineToks(l) + rest == PipeToks(l.pipe) + (Amps(l.backs) + after);
    AmpsFollow(l.backs, after);
    PipeDerived(l.pipe, Amps(l.backs) + after);
    BacksRead(PipeTree(l.pipe), l.backs, after);
    if l.MoreLine? {
      assert after[1..] == LineToks(l.more) + rest;
      LineDerived(l.more, rest);
    }
  }

  lemma AmpsFollow<W>(n: nat, after: seq<Tok<W>>)
    requires after == [] || Starts(after, ");")
    ensures AfterPipe(Amps(n) + after) && !Starts(after, "&")
  {
    if n == 0 { assert Amps(n) + after == after; } else { assert (Amps(n) + after)[0] == Sym('&'); }
  }

  // Whatever is read has a derivation.

  lemma {:induction false} ExecSound<W>(toks: seq<Tok<W>>) returns (x: ExecSyn<W>)
    requires ParseExec(toks).Done?
    ensures var r := ParseExec(toks); ExecFits(x) && toks == ExecToks(x) + r.rest && r.cmd == ExecTree(x)
    decreases |toks|, 1
  {
    if Starts(toks, "(") {
      x := BlockSound(toks);
    } else {
      ExecOnward(toks);
      var items := OnwardSound([], [], toks);
      NoneBefore(items);
      x := Simple(items);
    }
  }

  lemma {:induction false} BlockSound<W>(toks: seq<Tok<W>>) returns (x: ExecSyn<W>)
    requires Starts(toks, "(") && ParseBlock(toks).Done?
    ensures var r := ParseBlock(toks); ExecFits(x) && toks == ExecToks(x) + r.rest && r.cmd == ExecTree(x)
    decreases |toks|, 0
  {
    hide ParseLine, LineToks, LineTree, LineFits, TakeRedirs, Wrap, RedirToks;
    var r := ParseLine(toks[1..]);
    var l := LineSound(toks[1..]);
    var redirs := RedirsSound([], r.rest[1..]);
    assert [] + redirs == redirs;
    x := Block(l, redirs);
    Closing(r.rest);
    assert toks == [Sym('(')] + toks[1..];
    assert toks == ExecToks(x) + TakeRedirs([], r.rest[1..]).rest;
  }

  lemma Closing<W>(rest: seq<Tok<W>>)
    requires Starts(rest, ")")
    ensures rest == [Sym(')')] + rest[1..]
  {
  }

  lemma {:induction false} PipeSound<W>(toks: seq<Tok<W>>) returns (p: PipeSyn<W>)
    requires ParsePipe(toks).Done?
    ensures var r := ParsePipe(toks); PipeFits(p) && toks == PipeToks(p) + r.rest && r.cmd == PipeTree(p)
    decreases |toks|, 2
  {
    hide ParseExec, ExecFits, ExecToks, ExecTree;
    var r := ParseExec(toks);
    var x := ExecSound(toks);
    if Starts(r.rest, "|") {
      assert r.rest == [Sym('|')] + r.rest[1..];
      var more := PipeSound(r.rest[1..]);
      p := MorePipe(x, more);
      assert toks == PipeToks(p) + ParsePipe(r.rest[1..]).rest;
    } else {
      p := LastPipe(x);
    }
  }

  lemma {:induction false} LineSound<W>(toks: seq<Tok<W>>) returns (l: LineSyn<W>)
    requires ParseLine(toks).Done?
    ensures var r := ParseLine(toks); LineFits(l) && toks == LineToks(l) + r.rest && r.cmd == LineTree(l)
    decreases |toks|, 3
  {
    hide ParsePipe, PipeFits, PipeToks, PipeTree, Backs;
    var r := ParsePipe(toks);
    var p := PipeSound(toks);
    var b := Backs(r.cmd, r.rest);
    var n := BacksSound(r.cmd, r.rest);
    if Starts(b.1, ";") {
      assert b.1 == [Sym(';')] + b.1[1..];
      var more := LineSound(b.1[1..]);
      l := MoreLine(p, n, more);
      assert toks == LineToks(l) + ParseLine(b.1[1..]).rest;
    } else {
      l := LastLine(p, n);
      assert toks == LineToks(l) + b.1;
    }
  }

  ghost predicate Derives<W(!new)>(l: LineSyn<W>, toks: seq<Tok<W>>, cmd: Cmd<W>) {
    LineFits(l) && LineToks(l) == toks && LineTree(l) == cmd
  }

  /** A line is accepted, as a certain tree, exactly when it has a derivation that means this tree. */
  lemma ParseExact<W(!new)>(toks: seq<Tok<W>>, cmd: Cmd<W>)
    ensures Parse(toks) == Done(cmd, []) <==> exists l: LineSyn<W> :: Derives(l, toks, cmd)
    ensures Parse(toks).Done? ==> Parse(toks).rest == []
  {
    hide ParseLine, LineToks, LineFits, LineTree;
    if Parse(toks) == Done(cmd, []) {
      var l := LineSound(toks);
      assert LineToks(l) + [] == LineToks(l);
      assert Derives(l, toks, cmd);
    }
    if l: LineSyn<W> :| Derives(l, toks, cmd) {
      assert LineToks(l) + [] == LineToks(l);
      LineDerived(l, []);
    }
  }

  /** A parenthesis that is not closed, and one too many. */
  lemma BadParens<W>(l: LineSyn<W>, rest: seq<Tok<W>>)
    requires LineFits(l)
    ensures ParseExec([Sym('(')] + LineToks(l)) == Fail(MissingParen)
    ensures Parse(LineToks(l) + ([Sym(')')] + rest)) == Fail(Syntax)
  {
    hide ParseLine, LineToks, LineFits, LineTree;
    var toks := [Sym('(')] + LineToks(l);
    assert toks[0] == Sym('(') && toks[1..] == LineToks(l) + [];
    LineDerived(l, []);
    LineDerived(l, [Sym(')')] + rest);
  }

  /** White space at the end of a line, such as the newline that ends every line read, means nothing. */
  lemma {:induction false} BlankEnd(line: seq<char>, c: char, i: nat)
    requires i <= |line| && NUL !in line && (c == ' ' || c == '\t' || c == '\r' || c == '\n' || c == '\U{0b}')
    ensures NUL !in line + [c] && Lex(line + [c], i) == Lex(line, i)
    decreases |line| - i
  {
    var long := line + [c];
    assert long[|line|] == c && forall k: nat | k < |line| :: long[k] == line[k];
    var p := SkipSpace(line, i);
    SpaceTo(long, i, p);
    if p == |line| {
      assert SkipSpace(long, p) == p + 1 by { assert SkipSpace(long, p + 1) == p + 1; }
    } else {
      assert SkipSpace(long, p) == p;
      SameTok(line, long, p);
      BlankEnd(line, c, TokAt(line, p).1);
    }
  }

  lemma {:induction false} SpaceTo(line: seq<char>, i: nat, p: nat)
    requires i <= p <= |line| && forall k: nat | i <= k < p :: IsSpace(line[k])
    ensures SkipSpace(line, i) == SkipSpace(line, p)
    decreases p - i
  {
    if i < p { SpaceTo(line, i + 1, p); }
  }

  lemma SameTok(line: seq<char>, long: seq<char>, p: nat)
    requires p < |line| && |long| == |line| + 1 && long[..|line|] == line
    requires !IsLetter(long[|line|]) && long[|line|] != '>'
    ensures TokAt(long, p) == TokAt(line, p)
  {
    forall k: nat | k < |line| ensures long[k] == line[k] { assert long[..|line|][k] == line[k]; }
    EndOfWord(long, p, WordEnd(line, p));
  }
}
