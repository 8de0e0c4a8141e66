/** Precedence and associativity of the shell's grammar (user/sh.c:345-447): a command printed with parentheses
    only where it would otherwise be read differently is read back as itself. */
module ShellBrief {
  import opened ShellSyntax

  /** As an exec: words and redirections, or anything in parentheses and redirections. */
  function Atom<W>(cmd: Cmd<W>): seq<Tok<W>>
    decreases cmd, 0
  {
    match cmd
    case Exec(args) => Words(args)
    case Redir(c, f, m) => Atom(c) + [ModeTok(m), Word(f)]
    case Pipe(l, r) => [Sym('(')] + (Atom(l) + [Sym('|')] + Piped(r)) + [Sym(')')]
    case List(l, r) => [Sym('(')] + (Backed(l) + [Sym(';')] + Brief(r)) + [Sym(')')]
    case Back(c) => [Sym('(')] + (Backed(c) + [Sym('&')]) + [Sym(')')]
  }

  /** As a pipeline. */
  function Piped<W>(cmd: Cmd<W>): seq<Tok<W>>
    decreases cmd, 1
  {
    if cmd.Pipe? then Atom(cmd.left) + [Sym('|')] + Piped(cmd.right) else Atom(cmd)
  }

  /** As a pipeline in the background, or not. */
  function Backed<W>(cmd: Cmd<W>): seq<Tok<W>>
    decreases cmd, 2
  {
    if cmd.Back? then Backed(cmd.cmd) + [Sym('&')] else Piped(cmd)
  }

  /** As a line. */
  function Brief<W>(cmd: Cmd<W>): seq<Tok<W>>
    decreases cmd, 3
  {
    if cmd.List? then Backed(cmd.left) + [Sym(';')] + Brief(cmd.right) else Backed(cmd)
  }

  function RedirToks<W>(list: seq<(W, Mode)>): seq<Tok<W>> {
    if list == [] then [] else [ModeTok(list[0].1), Word(list[0].0)] + RedirToks(list[1..])
  }

  /** The tokens that end an exec, a pipeline, a line. */
  predicate AfterExec<W>(rest: seq<Tok<W>>) { rest == [] || Starts(rest, "|)&;") }

  predicate AfterPipe<W>(rest: seq<Tok<W>>) { rest == [] || Starts(rest, ")&;") }

  /** A command is a chain of redirections around one that is none. */
  function Base<W>(cmd: Cmd<W>): Cmd<W> { if cmd.Redir? then Base(cmd.cmd) else cmd }

  function Chain<W>(cmd: Cmd<W>): seq<(W, Mode)> { if cmd.Redir? then Chain(cmd.cmd) + [(cmd.file, cmd.mode)] else [] }

  lemma {:induction false} ChainWraps<W>(cmd: Cmd<W>)
    ensures Wrap(Base(cmd), Chain(cmd)) == cmd && Atom(cmd) == Atom(Base(cmd)) + RedirToks(Chain(cmd))
    ensures !Base(cmd).Redir? && (Small(cmd) ==> Small(Base(cmd)))
  {
    if cmd.Redir? {
      ChainWraps(cmd.cmd);
      var list, p := Chain(cmd.cmd), (cmd.file, cmd.mode);
      assert (list + [p])[..|list|] == list;
      RedirToksGrow(list, p);
    }
  }

  lemma {:induction false} RedirToksGrow<W>(list: seq<(W, Mode)>, p: (W, Mode))
    ensures RedirToks(list + [p]) == RedirToks(list) + [ModeTok(p.1), Word(p.0)]
    decreases |list|
  {
    if list == [] {
      assert list + [p] == [p] && [p][1..] == [];
    } else {
      assert (list + [p])[1..] == list[1..] + [p];
      RedirToksGrow(list[1..], p);
    }
  }

  lemma {:induction false} RedirsTaken<W>(done: seq<(W, Mode)>, list: seq<(W, Mode)>, rest: seq<Tok<W>>)
    requires !Starts(rest, "<>")
    ensures TakeRedirs(done, RedirToks(list) + rest) == Redirs(done + list, rest)
    decreases |list|
  {
    var toks := RedirToks(list) + rest;
    if list == [] {
      assert toks == rest && done + list == done;
    } else {
      assert toks[0] == ModeTok(list[0].1) && toks[1] == Word(list[0].0) && toks[2..] == RedirToks(list[1..]) + rest;
      assert ModeOf(toks[0]) == list[0].1 && Starts(toks, "<>") && list[0] == (list[0].0, list[0].1);
      RedirsTaken(done + [list[0]], list[1..], rest);
      assert done + [list[0]] + list[1..] == done + list;
    }
  }

  /** Words, then redirections. */
  lemma {:induction false} ArgsRead<W>(done: seq<W>, args: seq<W>, list: seq<(W, Mode)>, rest: seq<Tok<W>>)
    requires AfterExec(rest) && args != [] && |done| + |args| < MAXARGS
    ensures ParseArgs(done, [], Words(args) + (RedirToks(list) + rest)) == Done(Wrap(Exec(done + args), list), rest)
    decreases |args|
  {
    hide ParseArgs, TakeRedirs, Starts, AfterExec, Wrap, Words, RedirToks;
    var tail := RedirToks(list) + rest;
    var toks := Words(args) + tail;
    WordsHead(args, tail);
    if |args| == 1 {
      WordsNone(args[1..], tail);
      assert done + args == done + [args[0]];
      LastArg(done, list, toks, rest);
    } else {
      WordsHead(args[1..], tail);
      WordNext(toks[1..]);
      ArgsStep(done, toks);
      ArgsRead(done + [args[0]], args[1..], list, rest);
      assert done + [args[0]] + args[1..] == done + args;
    }
  }

  lemma WordNext<W>(toks: seq<Tok<W>>)
    requires toks != [] && toks[0].Word?
    ensures !Starts(toks, "<>") && !Starts(toks, "(")
  {
  }

  lemma LastArg<W>(done: seq<W>, list: seq<(W, Mode)>, toks: seq<Tok<W>>, rest: seq<Tok<W>>)
    requires AfterExec(rest) && |done| + 1 < MAXARGS && toks != [] && toks[0].Word?
    requires toks[1..] == RedirToks(list) + rest
    ensures ParseArgs(done, [], toks) == Done(Wrap(Exec(done + [toks[0].w]), list), rest)
  {
    hide TakeRedirs, Wrap;
    RedirsTaken([], list, rest);
    assert [] + list == list;
  }

  /** An exec or a bracketed command with its redirections is read back before anything that ends it. */
  lemma {:induction false} AtomRead<W>(cmd: Cmd<W>, rest: seq<Tok<W>>)
    requires Small(cmd) && AfterExec(rest)
    ensures ParseExec(Atom(cmd) + rest) == Done(cmd, rest)
    decreases cmd, 3
  {
    hide ParseExec, Atom, Small, Wrap, Starts, AfterExec;
    ChainWraps(cmd);
    BaseIn(cmd);
    var base, list := Base(cmd), Chain(cmd);
    assert Atom(cmd) + rest == Atom(base) + (RedirToks(list) + rest);
    if base.Exec? {
      ExecRead(base.args, list, rest);
    } else {
      BracketRead(base, list, rest);
    }
  }

  lemma {:induction false} BaseIn<W>(cmd: Cmd<W>)
    ensures Base(cmd) == cmd || Base(cmd) < cmd
  {
    if cmd.Redir? { BaseIn(cmd.cmd); }
  }

  lemma ExecRead<W>(args: seq<W>, list: seq<(W, Mode)>, rest: seq<Tok<W>>)
    requires Small(Exec(args)) && AfterExec(rest)
    ensures ParseExec(Atom(Exec(args)) + (RedirToks(list) + rest)) == Done(Wrap(Exec(args), list), rest)
  {
    hide ParseArgs, TakeRedirs, Wrap;
    var tail := RedirToks(list) + rest;
    var toks := Words(args) + tail;
    if args == [] {
      assert toks == tail;
      RedirsTaken([], list, rest);
      assert [] + list == list;
      StopNow([], list, rest);
      assert list != [] ==> tail[0] == ModeTok(list[0].1);
    } else {
      assert toks[0] == Word(args[0]);
      NoRedirs(Exec(args), toks);
      ArgsRead([], args, list, rest);
      assert [] + args == args;
    }
  }

  lemma StopNow<W>(args: seq<W>, list: seq<(W, Mode)>, rest: seq<Tok<W>>)
    requires AfterExec(rest)
    ensures ParseArgs(args, list, rest) == Done(Wrap(Exec(args), list), rest)
  {
  }

  lemma {:induction false} BracketRead<W>(cmd: Cmd<W>, list: seq<(W, Mode)>, rest: seq<Tok<W>>)
    requires Small(cmd) && AfterExec(rest) && !cmd.Exec? && !cmd.Redir?
    ensures ParseExec(Atom(cmd) + (RedirToks(list) + rest)) == Done(Wrap(cmd, list), rest)
    decreases cmd, 2
  {
    hide ParseLine, TakeRedirs, Wrap, Small, Atom, Brief;
    BracketIs(cmd);
    var tail := RedirToks(list) + rest;
    var toks, close := Atom(cmd) + tail, [Sym(')')] + tail;
    assert toks[0] == Sym('(') && toks[1..] == Brief(cmd) + close && close[1..] == tail;
    BodyRead(cmd, close);
    RedirsTaken([], list, rest);
    assert [] + list == list;
  }

  lemma BracketIs<W>(cmd: Cmd<W>)
    requires !cmd.Exec? && !cmd.Redir?
    ensures Atom(cmd) == [Sym('(')] + Brief(cmd) + [Sym(')')]
  {
    BackedIs(cmd);
  }

  lemma {:induction false} PipedRead<W>(cmd: Cmd<W>, rest: seq<Tok<W>>)
    requires Small(cmd) && AfterPipe(rest)
    ensures ParsePipe(Piped(cmd) + rest) == Done(cmd, rest)
    decreases cmd, 4
  {
    hide ParseExec, ParsePipe, Atom, Starts, Small;
    SmallParts(cmd);
    Enders(rest);
    if cmd.Pipe? {
      PipeRead(cmd, rest);
    } else {
      AtomRead(cmd, rest);
      PipeOne(Atom(cmd) + rest, cmd, rest);
    }
  }

  lemma {:induction false} PipeRead<W>(cmd: Cmd<W>, rest: seq<Tok<W>>)
    requires cmd.Pipe? && Small(cmd.left) && Small(cmd.right) && AfterPipe(rest)
    ensures ParsePipe(Atom(cmd.left) + [Sym('|')] + Piped(cmd.right) + rest) == Done(cmd, rest)
    decreases cmd, 0
  {
    hide ParseExec, ParsePipe, Atom, Piped, Small;
    var tail := [Sym('|')] + (Piped(cmd.right) + rest);
    var toks := Atom(cmd.left) + tail;
    assert toks == Atom(cmd.left) + [Sym('|')] + Piped(cmd.right) + rest && tail[1..] == Piped(cmd.right) + rest;
    AtomRead(cmd.left, tail);
    PipedRead(cmd.right, rest);
    PipeTwo(toks, cmd, tail, rest);
  }

  lemma PipeOne<W>(toks: seq<Tok<W>>, cmd: Cmd<W>, rest: seq<Tok<W>>)
    requires ParseExec(toks) == Done(cmd, rest) && !Starts(rest, "|")
    ensures ParsePipe(toks) == Done(cmd, rest)
  {
  }

  lemma PipeTwo<W>(toks: seq<Tok<W>>, cmd: Cmd<W>, tail: seq<Tok<W>>, rest: seq<Tok<W>>)
    requires cmd.Pipe? && ParseExec(toks) == Done(cmd.left, tail) && Starts(tail, "|")
    requires ParsePipe(tail[1..]) == Done(cmd.right, rest)
    ensures ParsePipe(toks) == Done(cmd, rest)
  {
  }

  lemma Enders<W>(rest: seq<Tok<W>>)
    requires AfterPipe(rest)
    ensures AfterExec(rest) && !Starts(rest, "|")
  {
  }

  /** The pipeline at the head of `toks` and the `&`s after it make what `cmd` and the `&`s of `rest` make. */
  ghost predicate ReadsTo<W>(toks: seq<Tok<W>>, cmd: Cmd<W>, rest: seq<Tok<W>>) {
    var r := ParsePipe(toks);
    r.Done? && Backs(r.cmd, r.rest) == Backs(cmd, rest)
  }

  lemma {:induction false} BackedRead<W>(cmd: Cmd<W>, rest: seq<Tok<W>>)
    requires Small(cmd) && AfterPipe(rest)
    ensures ReadsTo(Backed(cmd) + rest, cmd, rest)
    decreases cmd, 5
  {
    hide ParsePipe, Piped, Small;
    if cmd.Back? {
      BackRead(cmd, rest);
    } else {
      PipedRead(cmd, rest);
    }
  }

  lemma {:induction false} BackRead<W>(cmd: Cmd<W>, rest: seq<Tok<W>>)
    requires cmd.Back? && Small(cmd) && AfterPipe(rest)
    ensures ReadsTo(Backed(cmd.cmd) + [Sym('&')] + rest, cmd, rest)
    decreases cmd, 0
  {
    hide ParsePipe, Piped, Backed;
    var tail := [Sym('&')] + rest;
    assert Backed(cmd.cmd) + [Sym('&')] + rest == Backed(cmd.cmd) + tail && tail[1..] == rest;
    BackedRead(cmd.cmd, tail);
    assert Backs(cmd.cmd, tail) == Backs(cmd, rest);
  }

  /** A line of one of the compound forms. */
  lemma {:induction false} BodyRead<W>(cmd: Cmd<W>, rest: seq<Tok<W>>)
    requires Small(cmd) && Ends(rest) && !cmd.Exec? && !cmd.Redir?
    ensures ParseLine(Brief(cmd) + rest) == Done(cmd, rest)
    decreases cmd, 1
  {
    hide ParsePipe, ParseLine, Backed, Piped, Atom, Small;
    SmallParts(cmd);
    if cmd.List? {
      var tail := [Sym(';')] + (Brief(cmd.right) + rest);
      assert Brief(cmd) + rest == Backed(cmd.left) + tail && tail[1..] == Brief(cmd.right) + rest;
      BackedRead(cmd.left, tail);
      BriefRead(cmd.right, rest);
      LineTwo(Brief(cmd) + rest, cmd, tail, rest);
    } else {
      if cmd.Back? { BackRead(cmd, rest); } else { PipeRead(cmd, rest); }
      BackedIs(cmd);
      LineOne(Brief(cmd) + rest, cmd, rest);
    }
  }

  lemma BackedIs<W>(cmd: Cmd<W>)
    ensures cmd.Back? ==> Backed(cmd) == Backed(cmd.cmd) + [Sym('&')]
    ensures cmd.Pipe? ==> Backed(cmd) == Atom(cmd.left) + [Sym('|')] + Piped(cmd.right)
  {
  }

  lemma LineOne<W>(toks: seq<Tok<W>>, cmd: Cmd<W>, rest: seq<Tok<W>>)
    requires ReadsTo(toks, cmd, rest) && Ends(rest)
    ensures ParseLine(toks) == Done(cmd, rest)
  {
    hide ParsePipe;
    assert Backs(cmd, rest) == (cmd, rest);
  }

  lemma LineTwo<W>(toks: seq<Tok<W>>, cmd: Cmd<W>, tail: seq<Tok<W>>, rest: seq<Tok<W>>)
    requires cmd.List? && ReadsTo(toks, cmd.left, tail) && Starts(tail, ";")
    requires ParseLine(tail[1..]) == Done(cmd.right, rest)
    ensures ParseLine(toks) == Done(cmd, rest)
  {
    hide ParsePipe;
    assert Backs(cmd.left, tail) == (cmd.left, tail);
  }

  /** Printed with as few parentheses as precedence allows, a command before the end or a closing parenthesis
      is read back as itself: redirections bind tightest, then `|`, then `&`, then `;`, and `|` and `;` group
      to the right. */
  lemma {:induction false} BriefRead<W>(cmd: Cmd<W>, rest: seq<Tok<W>>)
    requires Small(cmd) && Ends(rest)
    ensures ParseLine(Brief(cmd) + rest) == Done(cmd, rest)
    decreases cmd, 6
  {
    hide ParseLine, ParseExec, Atom, Small;
    if cmd.Exec? || cmd.Redir? {
      AtomRead(cmd, rest);
      assert Backed(cmd) == Piped(cmd) == Atom(cmd);
      LineOfExec(Atom(cmd) + rest, cmd, rest);
    } else {
      BodyRead(cmd, rest);
    }
  }
}
