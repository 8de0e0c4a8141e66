/** The shell's recursive-descent parser over one cursor (user/sh.c:263-494) and its in-place nulterminate.

    `buf` is the line buffer. A panic ends the shell's child with a message; here it is a result. */
module Shell {
  import opened Basics
  import opened ShellSyntax
  import opened ShellWords

  datatype Outcome = Panic(why: Complaint) | Tree(cmd: Cmd<Span>)

  class Parser {
    const buf: array<char>
    const es: nat
    ghost const line: seq<char>
    var ps: nat

    /** parsecmd's start (user/sh.c:334): `es` is at the first NUL. */
    constructor (buf: array<char>)
      requires exists i: nat :: i < buf.Length && buf[i] == NUL
      ensures this.buf == buf && ps == 0 && Valid() && line == buf[..es]
    {
      var n := 0;
      while buf[n] != NUL
        invariant 0 <= n < buf.Length && (forall j: nat | j < n :: buf[j] != NUL) && exists i: nat ::
                n <= i < buf.Length && buf[i] == NUL
        decreases buf.Length - n
      {
        n := n + 1;
      }
      this.buf, es, ps, line := buf, n, 0, buf[..n];
    }

    /** The buffer still holds the line as it was given. */
    ghost predicate Valid()
      reads this, buf
    {
      && es == |line| < buf.Length && buf[es] == NUL && NUL !in line
      && (forall i: nat | i < es :: buf[i] == line[i]) && ps <= es
    }

    /** The tokens still to be read. */
    ghost function Left(): seq<Tok<Span>>
      reads this, buf
      requires Valid()
    {
      Lex(line, ps)
    }

    method SkipSpaces(from: nat) returns (s: nat)
      requires Valid() && from <= es
      ensures s == SkipSpace(line, from)
    {
      s := from;
      while s < es && IsSpace(buf[s])
        invariant from <= s <= es && SkipSpace(line, s) == SkipSpace(line, from)
      {
        s := s + 1;
      }
    }

    /** gettoken (user/sh.c:266-309): takes the next token off, with its kind as a character and its place. */
    method Gettoken() returns (ret: char, q: nat, eq: nat)
      requires Valid()
      modifies `ps
      ensures Valid() && ps >= old(ps)
      ensures (ret == NUL <==> old(Left()) == []) && (ret == NUL ==> Left() == [])
      ensures old(Left()) != [] ==> Left() == old(Left())[1..] && ret == Kind(old(Left())[0])
      ensures ret == 'a' ==> old(Left()) != [] && old(Left())[0] == Word(Span(q, eq))
    {
      hide Lex, SkipSpace, WordEnd, TokAt;
      q := SkipSpaces(ps);
      LexAt(line, ps);
      LexEnd(line);
      ret, eq := Chop(q);
      LexSkip(line, eq);
      ps := SkipSpaces(eq);
    }

    /** gettoken's switch (user/sh.c:277-302). */
    method Chop(q: nat) returns (ret: char, s: nat)
      requires Valid() && q <= es && (q < es ==> !IsSpace(line[q]))
      ensures q == es ==> ret == NUL && s == es
      ensures q < es ==> TokAt(line, q).1 == s <= es && ret == Kind(TokAt(line, q).0) != NUL
      ensures ret == 'a' ==> q < es && TokAt(line, q).0 == Word(Span(q, s))
    {
      s := q;
      ret := buf[s];
      if buf[s] == NUL {
      } else if buf[s] == '>' {
        s := s + 1;
        if buf[s] == '>' {
          ret := '+';
          s := s + 1;
        }
      } else if IsSymbol(buf[s]) {
        s := s + 1;
      } else {
        ret := 'a';
        while s < es && !IsSpace(buf[s]) && !IsSymbol(buf[s])
          invariant q <= s <= es && WordEnd(line, s) == WordEnd(line, q)
        {
          s := s + 1;
        }
      }
    }

    /** peek (user/sh.c:311-321): is the next token one that begins with one of these symbols? */
    method Peek(toks: seq<char>) returns (r: bool)
      requires Valid() && NUL !in toks && forall c | c in toks :: IsSymbol(c)
      modifies `ps
      ensures Valid() && ps >= old(ps) && Left() == old(Left()) && (r <==> Starts(Left(), toks))
      ensures (ps == es <==> Left() == [])
    {
      var s := SkipSpaces(ps);
      LexSkip(line, ps);
      ps := s;
      r := buf[s] != NUL && buf[s] in toks;
    }

    /** parseline (user/sh.c:345-360). */
    method Parseline() returns (r: Outcome)
      requires Valid()
      modifies `ps
      ensures Valid() && Agrees(r, ParseLine(old(Left())), Left())
      decreases |Left()|, 4
    {
      hide Lex, ParsePipe;
      r := Parsepipe();
      if r.Panic? {
        return;
      }
      ghost var c0, left0 := r.cmd, Left();
      var b := Peek("&");
      while b
        invariant Valid() && r.Tree? && b == Starts(Left(), "&") && Backs(r.cmd, Left()) == Backs(c0, left0)
        invariant |Left()| <= |left0|
        decreases |Left()|
      {
        var _, _, _ := Gettoken();
        r := Tree(Back(r.cmd));
        b := Peek("&");
      }
      var more := Peek(";");
      if more {
        var cmd := r.cmd;
        var _, _, _ := Gettoken();
        r := Parseline();
        if r.Tree? {
          r := Tree(List(cmd, r.cmd));
        }
      }
    }

    /** parsepipe (user/sh.c:362-373). */
    method Parsepipe() returns (r: Outcome)
      requires Valid()
      modifies `ps
      ensures Valid() && Agrees(r, ParsePipe(old(Left())), Left())
      decreases |Left()|, 3
    {
      hide Lex, ParseExec;
      r := Parseexec();
      if r.Panic? {
        return;
      }
      var more := Peek("|");
      if more {
        var cmd := r.cmd;
        var _, _, _ := Gettoken();
        r := Parsepipe();
        if r.Tree? {
          r := Tree(Pipe(cmd, r.cmd));
        }
      }
    }

    /** parseredirs (user/sh.c:375-398): the redirections next in line, after those in `list`. */
    method Parseredirs(list: seq<(Span, Mode)>) returns (r: Option<seq<(Span, Mode)>>)
      requires Valid()
      modifies `ps
      ensures Valid() && |Left()| <= |old(Left())|
      ensures TakeRedirs(list, old(Left())) == if r.Some? then Redirs(r.value, Left()) else Missing
    {
      hide Lex;
      ghost var left0 := Left();
      var got := list;
      var b := Peek("<>");
      while b
        invariant Valid() && b == Starts(Left(), "<>") && TakeRedirs(got, Left()) == TakeRedirs(list, left0)
        invariant |Left()| <= |left0|
        decreases |Left()|
      {
        var tok, _, _ := Gettoken();
        var word, q, eq := Gettoken();
        if word != 'a' {
          return None;
        }
        got := got + [(Span(q, eq), if tok == '<' then In else if tok == '>' then Out else Keep)];
        b := Peek("<>");
      }
      r := Some(got);
    }

    /** parseblock (user/sh.c:400-414); its own panic is unreachable. */
    method Parseblock() returns (r: Outcome)
      requires Valid() && Starts(Left(), "(")
      modifies `ps
      ensures Valid() && Agrees(r, ParseBlock(old(Left())), Left())
      decreases |Left()|, 1
    {
      hide Lex, ParseLine, TakeRedirs;
      var open := Peek("(");
      var _, _, _ := Gettoken();
      r := Parseline();
      if r.Panic? {
        return;
      }
      var close := Peek(")");
      if !close {
        return Panic(MissingParen);
      }
      var cmd := r.cmd;
      var _, _, _ := Gettoken();
      var redirs := Parseredirs([]);
      r := if redirs.None? then Panic(MissingFile) else Tree(Wrap(cmd, redirs.value));
    }

    /** parseexec (user/sh.c:416-447). */
    method Parseexec() returns (r: Outcome)
      requires Valid()
      modifies `ps
      ensures Valid() && Agrees(r, ParseExec(old(Left())), Left())
      decreases |Left()|, 2
    {
      hide Lex, ParseBlock, TakeRedirs;
      var block := Peek("(");
      if block {
        r := Parseblock();
        return;
      }
      var redirs := Parseredirs([]);
      if redirs.None? {
        return Panic(MissingFile);
      }
      var args: seq<Span> := [];
      ghost var list0, left0 := redirs.value, Left();
      var stop := Peek("|)&;");
      while !stop
        invariant Valid() && redirs.Some? && stop == Starts(Left(), "|)&;") && |args| < MAXARGS
        invariant ParseArgs(args, redirs.value, Left()) == ParseArgs([], list0, left0)
        decreases |Left()|
      {
        var tok, q, eq := Gettoken();
        if tok == NUL {
          break;
        }
        if tok != 'a' {
          return Panic(Syntax);
        }
        args := args + [Span(q, eq)];
        if |args| >= MAXARGS {
          return Panic(TooManyArgs);
        }
        redirs := Parseredirs(redirs.value);
        if redirs.None? {
          return Panic(MissingFile);
        }
        stop := Peek("|)&;");
      }
      r := Tree(Wrap(Exec(args), redirs.value));
    }
  }

  /** A parsing method did what the grammar says. */
  ghost predicate Agrees(r: Outcome, res: Result<Span>, left: seq<Tok<Span>>) {
    match res
    case Fail(why) => r == Panic(why)
    case Done(cmd, rest) => r == Tree(cmd) && left == rest
  }

  /** nulterminate (user/sh.c:449-494): a NUL at the end of every word, and nothing else. */
  method Nulterminate(buf: array<char>, cmd: Cmd<Span>)
    requires forall s | s in WordsOf(cmd) :: s.eq < buf.Length
    modifies buf
    ensures Cut(old(buf[..]), buf[..], EndsOf(cmd))
    decreases cmd
  {
    hide Cut, SpanEnds;
    ghost var b0 := buf[..];
    match cmd
    case Exec(args) =>
      CutNone(b0);
      for i := 0 to |args|
        invariant Cut(b0, buf[..], SpanEnds(ArgSet(args[..i])))
      {
        assert args[i] in WordsOf(cmd) && args[..i + 1] == args[..i] + [args[i]];
        ghost var b1 := buf[..];
        buf[args[i].eq] := NUL;
        assert buf[..] == b1[args[i].eq := NUL];
        CutOne(b0, b1, ArgSet(args[..i]), args[i]);
        assert ArgSet(args[..i + 1]) == ArgSet(args[..i]) + {args[i]};
      }
      assert args[..|args|] == args;
    case Redir(c, f, m) =>
      Nulterminate(buf, c);
      ghost var b1 := buf[..];
      buf[f.eq] := NUL;
      assert buf[..] == b1[f.eq := NUL];
      CutOne(b0, b1, WordsOf(c), f);
    case Pipe(l, r) =>
      Nulterminate(buf, l);
      ghost var b1 := buf[..];
      Nulterminate(buf, r);
      CutMore(b0, b1, buf[..], WordsOf(l), WordsOf(r));
    case List(l, r) =>
      Nulterminate(buf, l);
      ghost var b1 := buf[..];
      Nulterminate(buf, r);
      CutMore(b0, b1, buf[..], WordsOf(l), WordsOf(r));
    case Back(c) =>
      Nulterminate(buf, c);
  }

  /** parsecmd (user/sh.c:328-343): the whole line is parsed by the grammar or refused; afterwards every word
      of the tree reads, as a C string in the buffer, as it did in the line. */
  method Parsecmd(buf: array<char>) returns (r: Outcome, ghost line: seq<char>)
    requires exists i: nat :: i < buf.Length && buf[i] == NUL
    modifies buf
    ensures NUL !in line && |line| < buf.Length && line == old(buf[..])[..|line|] && old(buf[..])[|line|] == NUL
    ensures Agrees(r, Parse(Lex(line, 0)), [])
    ensures r.Panic? ==> buf[..] == old(buf[..])
    ensures r.Tree? ==> forall s | s in WordsOf(r.cmd) :: StringAt(buf[..], s.q, Text(line, s))
  {
    hide Lex, ParseLine, Starts, WordsOf, Cut, StringAt, Text, Legal, Texts;
    var p := new Parser(buf);
    line := p.line;
    r := p.Parseline();
    if r.Panic? {
      return;
    }
    var _ := p.Peek("");
    if p.ps != p.es {
      r := Panic(Syntax);
      return;
    }
    ParsedOk(line);
    ghost var b := buf[..];
    Nulterminate(buf, r.cmd);
    forall s | s in WordsOf(r.cmd) ensures StringAt(buf[..], s.q, Text(line, s)) {
      StringsKept(line, b, buf[..], r.cmd, s);
    }
  }

  /** What gettoken returns for a token. */
  function Kind(t: Tok<Span>): char { match t case Word(_) => 'a' case More => '+' case Sym(c) => c }

  lemma LexAt(line: seq<char>, i: nat)
    requires i <= |line| && NUL !in line
    ensures var p := SkipSpace(line, i);
            && p <= |line| && (p < |line| ==> !IsSpace(line[p]))
            && Lex(line, i) == if p == |line| then [] else [TokAt(line, p).0] + Lex(line, TokAt(line, p).1)
  {
  }

  lemma LexSkip(line: seq<char>, i: nat)
    requires i <= |line| && NUL !in line
    ensures Lex(line, SkipSpace(line, i)) == Lex(line, i)
  {
  }
}
