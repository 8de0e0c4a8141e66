/** Where the words of a parsed command come from: they are words of the line, disjoint and apart, so the
    parser's results are legal and nulterminate's writes spare all of them (user/sh.c:416-494). */
module ShellWords {
  import opened ShellSyntax

  ghost function WordsOf<W>(cmd: Cmd<W>): set<W> {
    match cmd
    case Exec(args) => ArgSet(args)
    case Redir(c, f, _) => WordsOf(c) + {f}
    case Pipe(l, r) => WordsOf(l) + WordsOf(r)
    case List(l, r) => WordsOf(l) + WordsOf(r)
    case Back(c) => WordsOf(c)
  }

  ghost function ArgSet<W>(args: seq<W>): set<W> { set w | w in args }

  ghost function ListSet<W>(list: seq<(W, Mode)>): set<W> { set p | p in list :: p.0 }

  ghost function TokSet<W>(toks: seq<Tok<W>>): set<W> { set t | t in toks && t.Word? :: t.w }

  lemma TokTail<W>(toks: seq<Tok<W>>, k: nat)
    requires k <= |toks|
    ensures TokSet(toks[k..]) <= TokSet(toks)
    ensures forall i: nat | i < |toks| && toks[i].Word? :: toks[i].w in TokSet(toks)
  {
    forall w | w in TokSet(toks[k..]) ensures w in TokSet(toks) { assert Word(w) in toks; }
    forall i: nat | i < |toks| && toks[i].Word? ensures toks[i].w in TokSet(toks) { assert toks[i] in toks; }
  }

  lemma {:induction false} WrapWords<W>(cmd: Cmd<W>, list: seq<(W, Mode)>)
    ensures WordsOf(Wrap(cmd, list)) == WordsOf(cmd) + ListSet(list) && Small(Wrap(cmd, list)) == Small(cmd)
    decreases |list|
  {
    if list == [] {
      assert ListSet(list) == {};
    } else {
      var n := |list| - 1;
      WrapWords(cmd, list[..n]);
      ListGrows(list[..n], list[n]);
      assert list == list[..n] + [list[n]];
    }
  }

  lemma ListGrows<W>(list: seq<(W, Mode)>, p: (W, Mode))
    ensures ListSet(list + [p]) == ListSet(list) + {p.0}
  {
    assert p in list + [p];
    forall w | w in ListSet(list) ensures w in ListSet(list + [p]) {
      var x :| x in list && x.0 == w;
      assert x in list + [p];
    }
  }

  lemma {:induction false} RedirsFrom<W>(list: seq<(W, Mode)>, toks: seq<Tok<W>>)
    ensures var r := TakeRedirs(list, toks);
            r.Redirs? ==> ListSet(r.list) <= ListSet(list) + TokSet(toks) && TokSet(r.rest) <= TokSet(toks)
    decreases |toks|
  {
    if Starts(toks, "<>") && |toks| >= 2 && toks[1].Word? {
      var p := (toks[1].w, ModeOf(toks[0]));
      RedirsFrom(list + [p], toks[2..]);
      ListGrows(list, p);
      TokTail(toks, 2);
    }
  }

  /** All words of the command are among `words`, no exec has more than nine, and the rest is from `toks`. */
  ghost predicate From<W>(r: Result<W>, words: set<W>, toks: seq<Tok<W>>) {
    r.Done? ==> Small(r.cmd) && WordsOf(r.cmd) <= words && TokSet(r.rest) <= TokSet(toks)
  }

  lemma {:induction false} ArgsFrom<W>(args: seq<W>, list: seq<(W, Mode)>, toks: seq<Tok<W>>)
    requires |args| < MAXARGS
    ensures From(ParseArgs(args, list, toks), ArgSet(args) + ListSet(list) + TokSet(toks), toks)
    decreases |toks|, 0
  {
    hide TakeRedirs, Starts;
    if toks == [] || Starts(toks, "|)&;") {
      WrapWords(Exec(args), list);
    } else if toks[0].Word? && |args| + 1 < MAXARGS {
      var redirs := TakeRedirs(list, toks[1..]);
      RedirsFrom(list, toks[1..]);
      TokTail(toks, 1);
      if redirs.Redirs? {
        ArgsFrom(args + [toks[0].w], redirs.list, redirs.rest);
        assert ArgSet(args + [toks[0].w]) <= ArgSet(args) + {toks[0].w};
      }
    }
  }

  lemma {:induction false} ExecFrom<W>(toks: seq<Tok<W>>)
    ensures From(ParseExec(toks), TokSet(toks), toks)
    decreases |toks|, 2
  {
    hide ParseArgs, ParseBlock, TakeRedirs, Starts;
    if Starts(toks, "(") {
      BlockFrom(toks);
    } else {
      var redirs := TakeRedirs([], toks);
      RedirsFrom([], toks);
      if redirs.Redirs? {
        ArgsFrom([], redirs.list, redirs.rest);
        Nothing(redirs.list);
      }
    }
  }

  lemma Nothing<W>(list: seq<(W, Mode)>)
    ensures ArgSet<W>([]) == {} && ListSet<W>([]) == {}
  {
  }

  lemma {:induction false} BlockFrom<W>(toks: seq<Tok<W>>)
    requires Starts(toks, "(")
    ensures From(ParseBlock(toks), TokSet(toks), toks)
    decreases |toks|, 1
  {
    hide ParseLine, TakeRedirs;
    var r := ParseLine(toks[1..]);
    LineFrom(toks[1..]);
    TokTail(toks, 1);
    if r.Done? && Starts(r.rest, ")") {
      TokTail(r.rest, 1);
      RedirsFrom([], r.rest[1..]);
      var redirs := TakeRedirs([], r.rest[1..]);
      if redirs.Redirs? {
        WrapWords(r.cmd, redirs.list);
        Nothing(redirs.list);
      }
    }
  }

  lemma {:induction false} PipeFrom<W>(toks: seq<Tok<W>>)
    ensures From(ParsePipe(toks), TokSet(toks), toks)
    decreases |toks|, 3
  {
    hide ParseExec;
    var r := ParseExec(toks);
    ExecFrom(toks);
    if r.Done? && Starts(r.rest, "|") {
      TokTail(r.rest, 1);
      PipeFrom(r.rest[1..]);
    }
  }

  lemma {:induction false} BacksFrom<W>(cmd: Cmd<W>, toks: seq<Tok<W>>)
    requires Small(cmd)
    ensures var b := Backs(cmd, toks); Small(b.0) && WordsOf(b.0) == WordsOf(cmd) && TokSet(b.1) <= TokSet(toks)
    decreases |toks|
  {
    if Starts(toks, "&") {
      BacksFrom(Back(cmd), toks[1..]);
      TokTail(toks, 1);
    }
  }

  lemma {:induction false} LineFrom<W>(toks: seq<Tok<W>>)
    ensures From(ParseLine(toks), TokSet(toks), toks)
    decreases |toks|, 4
  {
    hide ParsePipe, Backs;
    var r := ParsePipe(toks);
    PipeFrom(toks);
    if r.Done? {
      BacksFrom(r.cmd, r.rest);
      var b := Backs(r.cmd, r.rest);
      if Starts(b.1, ";") {
        TokTail(b.1, 1);
        LineFrom(b.1[1..]);
      }
    }
  }

  /** A word of the line: letters only, and no letter after it. */
  ghost predicate WordOk(line: seq<char>, s: Span) {
    && s.q < s.eq <= |line| && (forall i: nat | s.q <= i < s.eq :: IsLetter(line[i]))
    && (s.eq < |line| ==> !IsLetter(line[s.eq]))
  }

  /** Two words do not overlap or touch. */
  ghost predicate Apart(u: Span, v: Span) { u == v || u.eq < v.q || v.eq < u.q }

  lemma {:induction false} LexWordsOk(line: seq<char>, i: nat)
    requires i <= |line| && NUL !in line
    ensures forall s | s in TokSet(Lex(line, i)) :: WordOk(line, s) && i <= s.q
    ensures forall u, v | u in TokSet(Lex(line, i)) && v in TokSet(Lex(line, i)) :: Apart(u, v)
    decreases |line| - i
  {
    var p := SkipSpace(line, i);
    if p < |line| {
      var (t, e) := TokAt(line, p);
      var toks := Lex(line, i);
      assert IsSymbol(line[p]) || IsLetter(line[p]);
      assert toks == [t] + Lex(line, e) && toks[1..] == Lex(line, e);
      LexWordsOk(line, e);
      TokCons(toks);
    }
  }

  lemma TokCons<W>(toks: seq<Tok<W>>)
    requires toks != []
    ensures TokSet(toks) == TokSet(toks[1..]) + if toks[0].Word? then {toks[0].w} else {}
  {
    TokTail(toks, 1);
    forall w | w in TokSet(toks) && (toks[0].Word? ==> w != toks[0].w) ensures w in TokSet(toks[1..]) {
      assert Word(w) in toks;
      assert Word(w) in toks[1..];
    }
  }

  lemma {:induction false} TextsLegal(line: seq<char>, cmd: Cmd<Span>)
    requires Small(cmd) && forall s | s in WordsOf(cmd) :: WordOk(line, s)
    ensures Legal(Texts(line, cmd))
  {
    hide WordOk, LegalWord, Text;
    match cmd
    case Exec(args) =>
      forall i: nat | i < |args| ensures LegalWord(Text(line, args[i])) {
        assert args[i] in WordsOf(cmd);
        TextLegal(line, args[i]);
      }
    case Redir(c, f, m) =>
      TextLegal(line, f);
      TextsLegal(line, c);
    case Pipe(l, r) =>
      TextsLegal(line, l);
      TextsLegal(line, r);
    case List(l, r) =>
      TextsLegal(line, l);
      TextsLegal(line, r);
    case Back(c) => TextsLegal(line, c);
  }

  lemma TextLegal(line: seq<char>, s: Span)
    requires WordOk(line, s)
    ensures LegalWord(Text(line, s))
  {
  }

  /** What the parser makes of a line: a legal tree, its words apart from each other. */
  lemma ParsedOk(line: seq<char>)
    requires NUL !in line
    ensures var r := Parse(Lex(line, 0));
            r.Done? ==> Legal(Texts(line, r.cmd)) && WordsApart(line, r.cmd)
  {
    hide ParseLine, WordOk, Apart, Lex, Legal, Texts;
    LineFrom(Lex(line, 0));
    LexWordsOk(line, 0);
    var r := Parse(Lex(line, 0));
    if r.Done? { TextsLegal(line, r.cmd); }
  }

  ghost predicate WordsApart(line: seq<char>, cmd: Cmd<Span>) {
    && (forall s | s in WordsOf(cmd) :: WordOk(line, s))
    && (forall u, v | u in WordsOf(cmd) && v in WordsOf(cmd) :: Apart(u, v))
  }

  /** Every accepted line says the same as the canonical printing of what it was parsed to. */
  lemma NormalForm(line: seq<char>)
    requires NUL !in line && Parse(Lex(line, 0)).Done?
    ensures var t := Texts(line, Parse(Lex(line, 0)).cmd);
            NUL !in Show(t) && Parse(Lex(Show(t), 0)).Done? && Texts(Show(t), Parse(Lex(Show(t), 0)).cmd) == t
  {
    hide Parse, Lex, Show, Texts, Legal, WordsApart;
    ParsedOk(line);
    RoundTrip(Texts(line, Parse(Lex(line, 0)).cmd));
  }

  // nulterminate.

  ghost function SpanEnds(words: set<Span>): set<nat> { set s | s in words :: s.eq }

  ghost function EndsOf(cmd: Cmd<Span>): set<nat> { SpanEnds(WordsOf(cmd)) }

  /** `b` with a NUL at each of `ends`. */
  ghost predicate Cut(b: seq<char>, b': seq<char>, ends: set<nat>) {
    |b'| == |b| && forall i: nat | i < |b| :: b'[i] == if i in ends then NUL else b[i]
  }

  lemma CutNone(b: seq<char>)
    ensures Cut(b, b, SpanEnds(ArgSet([])))
  {
  }

  lemma CutMore(b: seq<char>, b1: seq<char>, b2: seq<char>, words: set<Span>, more: set<Span>)
    requires Cut(b, b1, SpanEnds(words)) && Cut(b1, b2, SpanEnds(more))
    ensures Cut(b, b2, SpanEnds(words + more))
  {
    assert SpanEnds(words + more) == SpanEnds(words) + SpanEnds(more);
  }

  lemma CutOne(b: seq<char>, b1: seq<char>, words: set<Span>, s: Span)
    requires Cut(b, b1, SpanEnds(words)) && s.eq < |b|
    ensures Cut(b, b1[s.eq := NUL], SpanEnds(words + {s}))
  {
    assert SpanEnds({s}) == {s.eq};
    CutMore(b, b1, b1[s.eq := NUL], words, {s});
  }

  /** The C string at place `q` is `text`. */
  ghost predicate StringAt(b: seq<char>, q: nat, text: seq<char>) {
    q + |text| < |b| && b[q + |text|] == NUL && forall i: nat | i < |text| :: b[q + i] == text[i] && text[i] != NUL
  }

  /** The ends written by nulterminate cut no word: every string still reads as its token did. */
  lemma StringsKept(line: seq<char>, b: seq<char>, b': seq<char>, cmd: Cmd<Span>, s: Span)
    requires |line| < |b| && (forall i: nat | i < |line| :: b[i] == line[i])
    requires WordsApart(line, cmd) && Cut(b, b', EndsOf(cmd)) && s in WordsOf(cmd)
    ensures StringAt(b', s.q, Text(line, s))
  {
    assert WordOk(line, s) && s.eq in EndsOf(cmd);
    forall v | v in WordsOf(cmd) ensures v.eq < s.q || s.eq <= v.eq { assert Apart(s, v) && WordOk(line, v); }
  }
}
