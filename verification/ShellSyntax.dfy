/** The shell's command language (user/sh.c:8-50, 263-494): lexing by position, the recursive-descent grammar
    over tokens, and a canonical parenthesised printing. */
module ShellSyntax {
  const NUL: char := '\0'
  const MAXARGS: nat := 10

  /** The words of a command: a pair of pointers into the line, or a text. */
  datatype Span = Span(q: nat, eq: nat)

  /** `<`, `>` and `>>`, with the open mode and descriptor each implies (user/sh.c:385-395): `>>` neither truncates
      nor appends. */
  datatype Mode = In | Out | Keep

  datatype Cmd<W> =
    | Exec(args: seq<W>)
    | Redir(cmd: Cmd<W>, file: W, mode: Mode)
    | Pipe(left: Cmd<W>, right: Cmd<W>)
    | List(left: Cmd<W>, right: Cmd<W>)
    | Back(cmd: Cmd<W>)

  datatype Tok<W> = Word(w: W) | Sym(c: char) | More

  datatype Complaint = MissingFile | MissingParen | Syntax | TooManyArgs

  datatype Result<W> = Fail(why: Complaint) | Done(cmd: Cmd<W>, rest: seq<Tok<W>>)

  predicate IsSpace(c: char) { c == ' ' || c == '\t' || c == '\r' || c == '\n' || c == '\U{0b}' }

  predicate IsSymbol(c: char) { c == '<' || c == '|' || c == '>' || c == '&' || c == ';' || c == '(' || c == ')' }

  /** A character that a word is made of. */
  predicate IsLetter(c: char) { c != NUL && !IsSpace(c) && !IsSymbol(c) }

  /** The first place from `i` on that is not white space. */
  function SkipSpace(line: seq<char>, i: nat): (j: nat)
    requires i <= |line|
    ensures i <= j <= |line| && (j < |line| ==> !IsSpace(line[j])) && forall k: nat | i <= k < j :: IsSpace(line[k])
    decreases |line| - i
  {
    if i < |line| && IsSpace(line[i]) then SkipSpace(line, i + 1) else i
  }

  /** The first place from `i` on that is no letter. */
  function WordEnd(line: seq<char>, i: nat): (j: nat)
    requires i <= |line|
    ensures i <= j <= |line| && (j < |line| ==> !IsLetter(line[j])) && forall k: nat | i <= k < j :: IsLetter(line[k])
    decreases |line| - i
  {
    if i < |line| && IsLetter(line[i]) then WordEnd(line, i + 1) else i
  }

  /** The first token at a place that is not white space, and where it ends. */
  function TokAt(line: seq<char>, p: nat): (r: (Tok<Span>, nat))
    requires p < |line|
    ensures IsSymbol(line[p]) || IsLetter(line[p]) ==> p < r.1 <= |line|
  {
    if line[p] == '>' && p + 1 < |line| && line[p + 1] == '>' then (More, p + 2)
    else if IsSymbol(line[p]) then (Sym(line[p]), p + 1)
    else (Word(Span(p, WordEnd(line, p))), WordEnd(line, p))
  }

  /** The tokens from place `i` on. */
  function Lex(line: seq<char>, i: nat): (toks: seq<Tok<Span>>)
    requires i <= |line| && NUL !in line
    decreases |line| - i
  {
    var p := SkipSpace(line, i);
    if p == |line| then [] else [TokAt(line, p).0] + Lex(line, TokAt(line, p).1)
  }

  /** The next token begins with one of these symbols. */
  predicate Starts<W>(toks: seq<Tok<W>>, symbols: seq<char>) {
    toks != [] && ((toks[0].Sym? && toks[0].c in symbols) || (toks[0].More? && '>' in symbols))
  }

  // The grammar.

  function Wrap<W>(cmd: Cmd<W>, redirs: seq<(W, Mode)>): Cmd<W> {
    if redirs == [] then cmd
    else Redir(Wrap(cmd, redirs[..|redirs| - 1]), redirs[|redirs| - 1].0, redirs[|redirs| - 1].1)
  }

  function ModeOf<W>(t: Tok<W>): Mode { if t == More then Keep else if t == Sym('<') then In else Out }

  datatype Redirs<W> = Missing | Redirs(list: seq<(W, Mode)>, rest: seq<Tok<W>>)

  /** Redirections, after those in `list`. */
  function TakeRedirs<W>(list: seq<(W, Mode)>, toks: seq<Tok<W>>): (r: Redirs<W>)
    ensures r.Redirs? ==> |r.rest| <= |toks| && !Starts(r.rest, "<>")
    decreases |toks|
  {
    if !Starts(toks, "<>") then Redirs(list, toks)
    else if |toks| < 2 || !toks[1].Word? then Missing
    else TakeRedirs(list + [(toks[1].w, ModeOf(toks[0]))], toks[2..])
  }

  /** line = pipe { "&" } [ ";" line ] */
  function ParseLine<W>(toks: seq<Tok<W>>): (r: Result<W>)
    ensures r.Done? ==> |r.rest| <= |toks|
    decreases |toks|, 4
  {
    var r := ParsePipe(toks);
    if r.Fail? then r else
      var b := Backs(r.cmd, r.rest);
      if Starts(b.1, ";") then
        var more := ParseLine(b.1[1..]);
        if more.Fail? then more else Done(List(b.0, more.cmd), more.rest)
      else Done(b.0, b.1)
  }

  function Backs<W>(cmd: Cmd<W>, toks: seq<Tok<W>>): (r: (Cmd<W>, seq<Tok<W>>))
    ensures |r.1| <= |toks|
    decreases |toks|
  {
    if Starts(toks, "&") then Backs(Back(cmd), toks[1..]) else (cmd, toks)
  }

  /** pipe = exec [ "|" pipe ] */
  function ParsePipe<W>(toks: seq<Tok<W>>): (r: Result<W>)
    ensures r.Done? ==> |r.rest| <= |toks|
    decreases |toks|, 3
  {
    var r := ParseExec(toks);
    if r.Fail? || !Starts(r.rest, "|") then r else
      var more := ParsePipe(r.rest[1..]);
      if more.Fail? then more else Done(Pipe(r.cmd, more.cmd), more.rest)
  }

  /** exec = "(" line ")" redirs | redirs { word redirs } */
  function ParseExec<W>(toks: seq<Tok<W>>): (r: Result<W>)
    ensures r.Done? ==> |r.rest| <= |toks|
    decreases |toks|, 2
  {
    if Starts(toks, "(") then ParseBlock(toks) else
      var redirs := TakeRedirs([], toks);
      if redirs.Missing? then Fail(MissingFile) else ParseArgs([], redirs.list, redirs.rest)
  }

  function ParseBlock<W>(toks: seq<Tok<W>>): (r: Result<W>)
    requires Starts(toks, "(")
    ensures r.Done? ==> |r.rest| <= |toks|
    decreases |toks|, 1
  {
    var r := ParseLine(toks[1..]);
    if r.Fail? then r
    else if !Starts(r.rest, ")") then Fail(MissingParen)
    else
      var redirs := TakeRedirs([], r.rest[1..]);
      if redirs.Missing? then Fail(MissingFile) else Done(Wrap(r.cmd, redirs.list), redirs.rest)
  }

  function ParseArgs<W>(args: seq<W>, list: seq<(W, Mode)>, toks: seq<Tok<W>>): (r: Result<W>)
    ensures r.Done? ==> |r.rest| <= |toks|
    decreases |toks|, 0
  {
    if toks == [] || Starts(toks, "|)&;") then Done(Wrap(Exec(args), list), toks)
    else if !toks[0].Word? then Fail(Syntax)
    else if |args| + 1 >= MAXARGS then Fail(TooManyArgs)
    else
      var redirs := TakeRedirs(list, toks[1..]);
      if redirs.Missing? then Fail(MissingFile) else ParseArgs(args + [toks[0].w], redirs.list, redirs.rest)
  }

  /** A whole line. */
  function Parse<W>(toks: seq<Tok<W>>): Result<W> {
    var r := ParseLine(toks);
    if r.Done? && r.rest != [] then Fail(Syntax) else r
  }

  // Printing.

  function Words<W>(args: seq<W>): seq<Tok<W>> { if args == [] then [] else [Word(args[0])] + Words(args[1..]) }

  function ModeTok<W>(m: Mode): Tok<W> { match m case In => Sym('<') case Out => Sym('>') case Keep => More }

  function Paren<W>(cmd: Cmd<W>): seq<Tok<W>>
    decreases cmd, 1
  {
    [Sym('(')] + Print(cmd) + [Sym(')')]
  }

  /** The tokens of the canonical printing: every part of a compound command in parentheses. */
  function Print<W>(cmd: Cmd<W>): seq<Tok<W>>
    decreases cmd, 0
  {
    match cmd
    case Exec(args) => Words(args)
    case Redir(c, f, m) => Paren(c) + [ModeTok(m), Word(f)]
    case Pipe(l, r) => Paren(l) + [Sym('|')] + Paren(r)
    case List(l, r) => Paren(l) + [Sym(';')] + Paren(r)
    case Back(c) => Paren(c) + [Sym('&')]
  }

  /** No command has more than nine words. */
  predicate Small<W>(cmd: Cmd<W>) {
    match cmd
    case Exec(args) => |args| < MAXARGS
    case Redir(c, _, _) => Small(c)
    case Pipe(l, r) => Small(l) && Small(r)
    case List(l, r) => Small(l) && Small(r)
    case Back(c) => Small(c)
  }

  /** Where a line may end. */
  predicate Ends<W>(rest: seq<Tok<W>>) { rest == [] || Starts(rest, ")") }

  lemma {:induction false} ArgsPrinted<W>(done: seq<W>, args: seq<W>, rest: seq<Tok<W>>)
    requires Ends(rest) && |done| + |args| < MAXARGS
    ensures ParseArgs(done, [], Words(args) + rest) == Done(Exec(done + args), rest)
    decreases |args|
  {
    hide ParseArgs, Starts, Ends, Words;
    if args == [] {
      WordsNone(args, rest);
      assert done + args == done;
      ArgsStop(done, rest);
    } else {
      var toks := Words(args) + rest;
      WordsHead(args, rest);
      WordsThen(args[1..], rest);
      ArgsStep(done, toks);
      ArgsPrinted(done + [args[0]], args[1..], rest);
      assert done + [args[0]] + args[1..] == done + args;
    }
  }

  lemma {:induction false} WordsHead<W>(args: seq<W>, rest: seq<Tok<W>>)
    requires args != []
    ensures Words(args) + rest != [] && (Words(args) + rest)[0] == Word(args[0])
    ensures (Words(args) + rest)[1..] == Words(args[1..]) + rest
  {
    assert Words(args) + rest == [Word(args[0])] + (Words(args[1..]) + rest);
  }

  lemma {:induction false} WordsNone<W>(args: seq<W>, rest: seq<Tok<W>>)
    requires args == []
    ensures Words(args) + rest == rest
  {
  }

  lemma ArgsStop<W>(done: seq<W>, rest: seq<Tok<W>>)
    requires Ends(rest)
    ensures ParseArgs(done, [], rest) == Done(Exec(done), rest)
  {
  }

  lemma ArgsStep<W>(done: seq<W>, toks: seq<Tok<W>>)
    requires toks != [] && toks[0].Word? && |done| + 1 < MAXARGS && !Starts(toks[1..], "<>")
    ensures ParseArgs(done, [], toks) == ParseArgs(done + [toks[0].w], [], toks[1..])
  {
    hide TakeRedirs;
    NoRedirs(Exec(done), toks[1..]);
  }

  lemma WordsThen<W>(args: seq<W>, rest: seq<Tok<W>>)
    requires Ends(rest)
    ensures !Starts(Words(args) + rest, "<>") && !Starts(Words(args) + rest, "(")
  {
    if args == [] { assert Words(args) + rest == rest; } else { assert (Words(args) + rest)[0] == Word(args[0]); }
  }

  lemma NoRedirs<W>(cmd: Cmd<W>, toks: seq<Tok<W>>)
    requires !Starts(toks, "<>")
    ensures TakeRedirs([], toks) == Redirs([], toks) && Wrap(cmd, []) == cmd
  {
  }

  lemma SmallParts<W>(cmd: Cmd<W>)
    requires Small(cmd)
    ensures cmd.Exec? ==> |cmd.args| < MAXARGS
    ensures cmd.Redir? || cmd.Back? ==> Small(cmd.cmd)
    ensures cmd.Pipe? || cmd.List? ==> Small(cmd.left) && Small(cmd.right)
  {
  }

  /** A command in parentheses, with what follows it. */
  lemma {:induction false} BlockPrinted<W>(cmd: Cmd<W>, tail: seq<Tok<W>>)
    requires Small(cmd)
    ensures var redirs := TakeRedirs([], tail);
            ParseExec(Paren(cmd) + tail) == if redirs.Missing? then Fail(MissingFile)
                else Done(Wrap(cmd, redirs.list), redirs.rest)
    decreases cmd, 2
  {
    hide ParseLine, TakeRedirs, Print, Small, Wrap;
    var toks, close := Paren(cmd) + tail, [Sym(')')] + tail;
    assert toks[0] == Sym('(') && toks[1..] == Print(cmd) + close;
    LinePrinted(cmd, close);
    assert close[1..] == tail;
  }

  lemma ExecOnly<W>(args: seq<W>, rest: seq<Tok<W>>)
    requires Ends(rest) && |args| < MAXARGS
    ensures ParseExec(Words(args) + rest) == Done(Exec(args), rest)
  {
    hide ParseArgs, ParseBlock;
    var toks := Words(args) + rest;
    ArgsPrinted([], args, rest);
    assert [] + args == args;
    WordsThen(args, rest);
  }

  lemma RedirTaken<W>(f: W, m: Mode, rest: seq<Tok<W>>)
    requires Ends(rest)
    ensures TakeRedirs([], [ModeTok(m), Word(f)] + rest) == Redirs([(f, m)], rest)
  {
    var toks := [ModeTok(m), Word(f)] + rest;
    assert toks[2..] == rest && toks[0] == ModeTok(m) && toks[1] == Word(f) && Starts(toks, "<>");
    assert ModeOf(toks[0]) == m && [] + [(f, m)] == [(f, m)];
    assert !Starts(rest, "<>");
  }

  /** What an exec followed by the end or a closing parenthesis makes of a line. */
  lemma LineOfExec<W>(toks: seq<Tok<W>>, cmd: Cmd<W>, rest: seq<Tok<W>>)
    requires Ends(rest) && ParseExec(toks) == Done(cmd, rest)
    ensures ParsePipe(toks) == Done(cmd, rest) && ParseLine(toks) == Done(cmd, rest)
  {
    hide ParseExec;
    assert ParsePipe(toks) == Done(cmd, rest);
    assert Backs(cmd, rest) == (cmd, rest);
  }

  /** A printed command followed by the end or a closing parenthesis is read back as itself. */
  lemma {:induction false} LinePrinted<W>(cmd: Cmd<W>, rest: seq<Tok<W>>)
    requires Small(cmd) && Ends(rest)
    ensures ParseLine(Print(cmd) + rest) == Done(cmd, rest)
    decreases cmd, 1
  {
    hide ParseArgs, ParseBlock, ParseExec, Small, Paren, ParseLine, ParsePipe;
    SmallParts(cmd);
    match cmd
    case Exec(args) =>
      ExecOnly(args, rest);
      LineOfExec(Print(cmd) + rest, cmd, rest);
    case Redir(c, f, m) =>
      RedirPrinted(cmd, rest);
    case Pipe(l, r) =>
      BothPrinted(cmd, '|', rest);
      LineOfPipe(Print(cmd) + rest, l, r, [Sym('|')] + (Paren(r) + rest), rest);
    case List(l, r) =>
      BothPrinted(cmd, ';', rest);
      LineOfList(Print(cmd) + rest, l, r, [Sym(';')] + (Paren(r) + rest), rest);
    case Back(c) =>
      BackPrinted(cmd, rest);
  }

  lemma {:induction false} RedirPrinted<W>(cmd: Cmd<W>, rest: seq<Tok<W>>)
    requires cmd.Redir? && Small(cmd.cmd) && Ends(rest)
    ensures ParseLine(Print(cmd) + rest) == Done(cmd, rest)
    decreases cmd, 0
  {
    hide ParseExec, Small, Paren, ParseLine, ParsePipe, TakeRedirs, Wrap;
    var tail := [ModeTok(cmd.mode), Word(cmd.file)] + rest;
    BlockPrinted(cmd.cmd, tail);
    assert Print(cmd) + rest == Paren(cmd.cmd) + tail;
    RedirTaken(cmd.file, cmd.mode, rest);
    WrapOne(cmd.cmd, cmd.file, cmd.mode);
    LineOfExec(Print(cmd) + rest, cmd, rest);
  }

  lemma {:induction false} BackPrinted<W>(cmd: Cmd<W>, rest: seq<Tok<W>>)
    requires cmd.Back? && Small(cmd.cmd) && Ends(rest)
    ensures ParseLine(Print(cmd) + rest) == Done(cmd, rest)
    decreases cmd, 0
  {
    hide ParseExec, Small, Paren, ParseLine, ParsePipe, TakeRedirs, Wrap;
    var tail := [Sym('&')] + rest;
    BlockPrinted(cmd.cmd, tail);
    assert Print(cmd) + rest == Paren(cmd.cmd) + tail && tail[1..] == rest;
    NoRedirs(cmd.cmd, tail);
    LineOfBack(Print(cmd) + rest, cmd.cmd, tail, rest);
  }

  lemma {:induction false} BothPrinted<W>(cmd: Cmd<W>, c: char, rest: seq<Tok<W>>)
    requires (cmd.Pipe? || cmd.List?) && Small(cmd.left) && Small(cmd.right) && Ends(rest) && (c == '|' || c == ';')
    ensures var tail := [Sym(c)] + (Paren(cmd.right) + rest);
            && ParseExec(Paren(cmd.left) + [Sym(c)] + Paren(cmd.right) + rest) == Done(cmd.left, tail)
            && ParsePipe(tail[1..]) == Done(cmd.right, rest) && ParseLine(tail[1..]) == Done(cmd.right, rest)
    decreases cmd, 0
  {
    hide ParseExec, Small, Paren, ParseLine, ParsePipe, TakeRedirs, Wrap;
    var l, r := cmd.left, cmd.right;
    var tail := [Sym(c)] + (Paren(r) + rest);
    BlockPrinted(l, tail);
    BlockPrinted(r, rest);
    NoRedirs(l, tail);
    NoRedirs(r, rest);
    assert Paren(l) + [Sym(c)] + Paren(r) + rest == Paren(l) + tail && tail[1..] == Paren(r) + rest;
    LineOfExec(tail[1..], r, rest);
  }

  lemma WrapOne<W>(c: Cmd<W>, f: W, m: Mode)
    ensures Wrap(c, [(f, m)]) == Redir(c, f, m)
  {
    assert [(f, m)][..0] == [];
  }

  lemma LineOfPipe<W>(toks: seq<Tok<W>>, l: Cmd<W>, r: Cmd<W>, tail: seq<Tok<W>>, rest: seq<Tok<W>>)
    requires Ends(rest) && ParseExec(toks) == Done(l, tail) && Starts(tail, "|")
    requires ParsePipe(tail[1..]) == Done(r, rest)
    ensures ParseLine(toks) == Done(Pipe(l, r), rest)
  {
    hide ParseExec;
    assert ParsePipe(toks) == Done(Pipe(l, r), rest);
    assert Backs(Pipe(l, r), rest) == (Pipe(l, r), rest);
  }

  lemma LineOfList<W>(toks: seq<Tok<W>>, l: Cmd<W>, r: Cmd<W>, tail: seq<Tok<W>>, rest: seq<Tok<W>>)
    requires ParseExec(toks) == Done(l, tail) && Starts(tail, ";") && ParseLine(tail[1..]) == Done(r, rest)
    ensures ParseLine(toks) == Done(List(l, r), rest)
  {
    hide ParseExec;
    assert ParsePipe(toks) == Done(l, tail);
    assert Backs(l, tail) == (l, tail);
  }

  lemma LineOfBack<W>(toks: seq<Tok<W>>, c: Cmd<W>, tail: seq<Tok<W>>, rest: seq<Tok<W>>)
    requires Ends(rest) && ParseExec(toks) == Done(c, tail) && Starts(tail, "&") && tail[1..] == rest
    ensures ParseLine(toks) == Done(Back(c), rest)
  {
    hide ParseExec;
    assert ParsePipe(toks) == Done(c, tail);
    assert Backs(Back(c), rest) == (Back(c), rest);
    assert Backs(c, tail) == Backs(Back(c), rest);
  }

  // The printed text.

  predicate LegalWord(w: seq<char>) { w != [] && forall i: nat | i < |w| :: IsLetter(w[i]) }

  /** What a line can say: at most nine words in a command, all legal. */
  predicate Legal(t: Cmd<seq<char>>) {
    match t
    case Exec(args) => |args| < MAXARGS && forall i: nat | i < |args| :: LegalWord(args[i])
    case Redir(c, f, _) => Legal(c) && LegalWord(f)
    case Pipe(l, r) => Legal(l) && Legal(r)
    case List(l, r) => Legal(l) && Legal(r)
    case Back(c) => Legal(c)
  }

  function ShowWords(args: seq<seq<char>>): seq<char> {
    if args == [] then [] else args[0] + " " + ShowWords(args[1..])
  }

  function ModeText(m: Mode): seq<char> { match m case In => "<" case Out => ">" case Keep => ">>" }

  function ShowParen(t: Cmd<seq<char>>): seq<char>
    decreases t, 1
  {
    "(" + Show(t) + ")"
  }

  /** The text of the canonical printing. */
  function Show(t: Cmd<seq<char>>): seq<char>
    decreases t, 0
  {
    match t
    case Exec(args) => ShowWords(args)
    case Redir(c, f, m) => ShowParen(c) + ModeText(m) + (f + " ")
    case Pipe(l, r) => ShowParen(l) + "|" + ShowParen(r)
    case List(l, r) => ShowParen(l) + ";" + ShowParen(r)
    case Back(c) => ShowParen(c) + "&"
  }

  function PlaceWords(args: seq<seq<char>>, o: nat): (r: seq<Span>)
    ensures |r| == |args|
  {
    if args == [] then [] else [Span(o, o + |args[0]|)] + PlaceWords(args[1..], o + |args[0]| + 1)
  }

  /** The tree with its words where the printing at place `o` has them. */
  function Place(t: Cmd<seq<char>>, o: nat): Cmd<Span> {
    match t
    case Exec(args) => Exec(PlaceWords(args, o))
    case Redir(c, f, m) =>
      var p := o + |ShowParen(c)| + |ModeText(m)|;
      Redir(Place(c, o + 1), Span(p, p + |f|), m)
    case Pipe(l, r) => Pipe(Place(l, o + 1), Place(r, o + |ShowParen(l)| + 2))
    case List(l, r) => List(Place(l, o + 1), Place(r, o + |ShowParen(l)| + 2))
    case Back(c) => Back(Place(c, o + 1))
  }

  predicate InLine(line: seq<char>, s: Span) { s.q <= s.eq <= |line| }

  function Text(line: seq<char>, s: Span): seq<char> { if InLine(line, s) then line[s.q..s.eq] else [] }

  /** The tree with the texts its words stand for. */
  function Texts(line: seq<char>, cmd: Cmd<Span>): Cmd<seq<char>> {
    match cmd
    case Exec(args) => Exec(seq(|args|, i requires 0 <= i < |args| => Text(line, args[i])))
    case Redir(c, f, m) => Redir(Texts(line, c), Text(line, f), m)
    case Pipe(l, r) => Pipe(Texts(line, l), Texts(line, r))
    case List(l, r) => List(Texts(line, l), Texts(line, r))
    case Back(c) => Back(Texts(line, c))
  }

  /** The line has `s` at place `o`. */
  predicate At(line: seq<char>, o: nat, s: seq<char>) { o + |s| <= |line| && line[o..o + |s|] == s && NUL !in line }

  lemma AtParts(line: seq<char>, o: nat, a: seq<char>, b: seq<char>)
    requires At(line, o, a + b)
    ensures At(line, o, a) && At(line, o + |a|, b)
  {
    assert line[o..o + |a|] == line[o..o + |a + b|][..|a|];
    assert line[o + |a|..o + |a| + |b|] == line[o..o + |a + b|][|a|..];
  }

  lemma AtChar(line: seq<char>, o: nat, s: seq<char>, i: nat)
    requires At(line, o, s) && i < |s|
    ensures line[o + i] == s[i]
  {
    assert line[o..o + |s|][i] == s[i];
  }

  /** A legal word and the space after it make one token. */
  lemma LexWord(line: seq<char>, o: nat, w: seq<char>)
    requires LegalWord(w) && At(line, o, w + " ")
    ensures Lex(line, o) == [Word(Span(o, o + |w|))] + Lex(line, o + |w| + 1) && Text(line, Span(o, o + |w|)) == w
  {
    AtParts(line, o, w, " ");
    forall i: nat | i < |w| ensures line[o + i] == w[i] { AtChar(line, o, w, i); }
    AtChar(line, o + |w|, " ", 0);
    EndOfWord(line, o, o + |w|);
    assert IsLetter(w[0]) && SkipSpace(line, o) == o;
    LexSpace(line, o + |w|);
  }

  lemma {:induction false} EndOfWord(line: seq<char>, i: nat, j: nat)
    requires i <= j <= |line| && (forall k: nat | i <= k < j :: IsLetter(line[k]))
    requires (j < |line| ==> !IsLetter(line[j]))
    ensures WordEnd(line, i) == j
    decreases j - i
  {
    if i < j { EndOfWord(line, i + 1, j); }
  }

  lemma LexSpace(line: seq<char>, o: nat)
    requires o < |line| && NUL !in line && IsSpace(line[o])
    ensures Lex(line, o) == Lex(line, o + 1)
  {
    assert SkipSpace(line, o) == SkipSpace(line, o + 1);
  }

  /** A symbol is one token, if it is not a `>` before another. */
  lemma LexSymbol(line: seq<char>, o: nat, c: char)
    requires At(line, o, [c]) && IsSymbol(c) && (c == '>' && o + 1 < |line| ==> line[o + 1] != '>')
    ensures Lex(line, o) == [Sym(c)] + Lex(line, o + 1)
  {
    AtChar(line, o, [c], 0);
  }

  lemma LexMode(line: seq<char>, o: nat, m: Mode)
    requires At(line, o, ModeText(m)) && (o + |ModeText(m)| < |line| ==> line[o + |ModeText(m)|] != '>')
    ensures Lex(line, o) == [ModeTok(m)] + Lex(line, o + |ModeText(m)|)
  {
    AtChar(line, o, ModeText(m), 0);
    if m == Keep { AtChar(line, o, ModeText(m), 1); } else { LexSymbol(line, o, ModeText(m)[0]); }
  }

  lemma {:induction false} LexWords(line: seq<char>, o: nat, args: seq<seq<char>>)
    requires (forall i: nat | i < |args| :: LegalWord(args[i])) && At(line, o, ShowWords(args))
    ensures Lex(line, o) == Words(PlaceWords(args, o)) + Lex(line, o + |ShowWords(args)|)
    ensures forall i: nat | i < |args| :: Text(line, PlaceWords(args, o)[i]) == args[i]
    decreases |args|
  {
    hide Lex, Text, LegalWord;
    if args != [] {
      var w, more := args[0], ShowWords(args[1..]);
      AtParts(line, o, w + " ", more);
      LexWord(line, o, w);
      LexWords(line, o + |w| + 1, args[1..]);
      WordsCons(PlaceWords(args, o));
    }
  }

  lemma WordsCons(spans: seq<Span>)
    requires spans != []
    ensures Words(spans) == [Word(spans[0])] + Words(spans[1..])
  {
  }

  /** The printed text of a legal tree lexes to its printed tokens, whatever comes after. */
  lemma {:induction false} LexShow(line: seq<char>, o: nat, t: Cmd<seq<char>>)
    requires Legal(t) && At(line, o, Show(t))
    ensures Lex(line, o) == Print(Place(t, o)) + Lex(line, o + |Show(t)|)
    ensures Texts(line, Place(t, o)) == t
    decreases t, 1
  {
    hide Lex, Text, LegalWord, At;
    match t
    case Exec(args) =>
      LexWords(line, o, args);
    case Redir(c, f, m) =>
      LexRedir(line, o, t);
    case Pipe(l, r) =>
      LexBoth(line, o, t, '|');
    case List(l, r) =>
      LexBoth(line, o, t, ';');
    case Back(c) =>
      AtParts(line, o, ShowParen(c), "&");
      LexParen(line, o, c);
      LexSymbol(line, o + |ShowParen(c)|, '&');
  }

  lemma {:induction false} LexParen(line: seq<char>, o: nat, t: Cmd<seq<char>>)
    requires Legal(t) && At(line, o, ShowParen(t))
    ensures Lex(line, o) == Paren(Place(t, o + 1)) + Lex(line, o + |ShowParen(t)|)
    ensures Texts(line, Place(t, o + 1)) == t
    decreases t, 2
  {
    hide Lex, Text, LegalWord, At, Legal, Print, Show, Place, Texts;
    AtParts(line, o, "(" + Show(t), ")");
    AtParts(line, o, "(", Show(t));
    LexSymbol(line, o, '(');
    LexShow(line, o + 1, t);
    LexSymbol(line, o + 1 + |Show(t)|, ')');
  }

  lemma {:induction false} LexBoth(line: seq<char>, o: nat, t: Cmd<seq<char>>, c: char)
    requires (t.Pipe? || t.List?) && Legal(t.left) && Legal(t.right) && (c == '|' || c == ';')
    requires At(line, o, ShowParen(t.left) + [c] + ShowParen(t.right))
    ensures var l, r, p := t.left, t.right, o + |ShowParen(t.left)| + 1;
            && Lex(line, o) == Paren(Place(l, o + 1)) + [Sym(c)] + Paren(Place(r, p + 1))
               + Lex(line, p + |ShowParen(r)|)
            && Texts(line, Place(l, o + 1)) == l && Texts(line, Place(r, p + 1)) == r
    decreases t, 0
  {
    hide Lex, Text, LegalWord, At, Legal, Print, Show, ShowParen, Paren, Place, Texts;
    var l, r := t.left, t.right;
    AtParts(line, o, ShowParen(l) + [c], ShowParen(r));
    AtParts(line, o, ShowParen(l), [c]);
    LexParen(line, o, l);
    LexSymbol(line, o + |ShowParen(l)|, c);
    LexParen(line, o + |ShowParen(l)| + 1, r);
  }

  lemma {:induction false} LexRedir(line: seq<char>, o: nat, t: Cmd<seq<char>>)
    requires t.Redir? && Legal(t.cmd) && LegalWord(t.file) && At(line, o, Show(t))
    ensures Lex(line, o) == Print(Place(t, o)) + Lex(line, o + |Show(t)|) && Texts(line, Place(t, o)) == t
    decreases t, 0
  {
    hide Lex, Text, At, Legal, ShowParen, Paren;
    var c, f, m := t.cmd, t.file, t.mode;
    var p := o + |ShowParen(c)|;
    var q := p + |ModeText(m)|;
    AtParts(line, o, ShowParen(c) + ModeText(m), f + " ");
    AtParts(line, o, ShowParen(c), ModeText(m));
    LexParen(line, o, c);
    AtChar(line, q, f + " ", 0);
    assert IsLetter(f[0]);
    LexMode(line, p, m);
    LexWord(line, q, f);
  }

  lemma LexEnd(line: seq<char>)
    requires NUL !in line
    ensures Lex(line, |line|) == []
  {
  }

  lemma {:induction false} SmallPlace(t: Cmd<seq<char>>, o: nat)
    requires Legal(t)
    ensures Small(Place(t, o))
  {
    hide Show;
    match t
    case Exec(args) =>
    case Redir(c, f, m) => SmallPlace(c, o + 1);
    case Pipe(l, r) =>
      SmallPlace(l, o + 1);
      SmallPlace(r, o + |ShowParen(l)| + 2);
    case List(l, r) =>
      SmallPlace(l, o + 1);
      SmallPlace(r, o + |ShowParen(l)| + 2);
    case Back(c) => SmallPlace(c, o + 1);
  }

  lemma {:induction false} ShowWordsNoNul(args: seq<seq<char>>)
    requires forall i: nat | i < |args| :: LegalWord(args[i])
    ensures NUL !in ShowWords(args)
  {
    if args != [] {
      assert LegalWord(args[0]);
      ShowWordsNoNul(args[1..]);
    }
  }

  lemma {:induction false} ShowNoNul(t: Cmd<seq<char>>)
    requires Legal(t)
    ensures NUL !in Show(t)
  {
    match t
    case Exec(args) => ShowWordsNoNul(args);
    case Redir(c, f, m) => ShowNoNul(c);
    case Pipe(l, r) =>
      ShowNoNul(l);
      ShowNoNul(r);
    case List(l, r) =>
      ShowNoNul(l);
      ShowNoNul(r);
    case Back(c) => ShowNoNul(c);
  }

  /** Parsing the canonical printing of a legal tree gives that tree back. */
  lemma RoundTrip(t: Cmd<seq<char>>)
    requires Legal(t)
    ensures NUL !in Show(t)
    ensures var r := Parse(Lex(Show(t), 0)); r.Done? && Texts(Show(t), r.cmd) == t
  {
    hide Lex, Legal, Print, Place, Show, ParseLine;
    var line := Show(t);
    ShowNoNul(t);
    assert At(line, 0, line);
    LexShow(line, 0, t);
    LexEnd(line);
    SmallPlace(t, 0);
    LinePrinted(Place(t, 0), []);
    assert Print(Place(t, 0)) + [] == Print(Place(t, 0));
  }
}
