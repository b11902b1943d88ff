/** The command language of user/sh.c as functions of the text and a position: what
    each parsing routine returns and where it leaves the cursor. */
module ShellGrammar {
  const MAXARGS := 10

  /** Redirections: < opens O_RDONLY on descriptor 0, > opens O_WRONLY|O_CREATE|O_TRUNC
      on 1, and >> the same without O_TRUNC. */
  datatype Op = In | Out | Append

  /** A command tree whose words are of type W: places in the text while parsing. */
  datatype Cmd<W> =
    | Exec(argv: seq<W>)
    | Redir(cmd: Cmd<W>, op: Op, file: W)
    | Pipe(left: Cmd<W>, right: Cmd<W>)
    | List(left: Cmd<W>, right: Cmd<W>)
    | Back(cmd: Cmd<W>)

  /** A word's start and the place just past its end, q and eq of gettoken. */
  datatype Span = Span(q: nat, eq: nat)

  datatype Error = Syntax | MissingFile | MissingParen | TooManyArgs

  datatype Result<T> = Ok(value: T, next: nat) | Err(error: Error)

  datatype Token = Token(kind: char, q: nat, eq: nat, next: nat)

  predicate Space(c: char) {
    c == ' ' || c == '\t' || c == '\r' || c == '\n' || c == '\U{B}'
  }

  predicate Symbol(c: char) {
    c in "<|>&;()"
  }

  predicate WordChar(c: char) {
    !Space(c) && !Symbol(c)
  }

  /** The first place from i on that is not white space. */
  function Skip(s: string, i: nat): (r: nat)
    requires i <= |s|
    ensures i <= r <= |s| && (forall k :: i <= k < r ==> Space(s[k])) && (r < |s| ==> !Space(s[r]))
    decreases |s| - i
  {
    if i < |s| && Space(s[i]) then Skip(s, i + 1) else i
  }

  /** The first place from i on that is not part of a word. */
  function WordEnd(s: string, i: nat): (r: nat)
    requires i <= |s|
    ensures i <= r <= |s| && (forall k :: i <= k < r ==> WordChar(s[k])) && (r < |s| ==> !WordChar(s[r]))
    decreases |s| - i
  {
    if i < |s| && WordChar(s[i]) then WordEnd(s, i + 1) else i
  }

  /** The place lies on a word that ends where the word does. */
  ghost predicate Good(s: string, w: Span) {
    && w.q < w.eq <= |s|
    && (forall k :: w.q <= k < w.eq ==> WordChar(s[k]))
    && (w.eq < |s| ==> !WordChar(s[w.eq]))
  }

  /** The next token: its kind ('a' for a word, '+' for >>, NUL at the end), its span
      and the place after it and the white space that follows. */
  function GetToken(s: string, i: nat): (t: Token)
    requires i <= |s|
    ensures i <= t.q <= t.eq <= t.next <= |s|
    ensures t.kind == 'a' ==> Good(s, Span(t.q, t.eq))
    ensures t.kind != '\0' ==> i < t.next
  {
    var q := Skip(s, i);
    if q == |s| then Token('\0', q, q, q)
    else if s[q] in "|();&<" then Token(s[q], q, q + 1, Skip(s, q + 1))
    else if s[q] == '>' then
      if q + 1 < |s| && s[q + 1] == '>' then Token('+', q, q + 2, Skip(s, q + 2))
      else Token('>', q, q + 1, Skip(s, q + 1))
    else
      var e := WordEnd(s, q);
      Token('a', q, e, Skip(s, e))
  }

  /** The next character that is not white space is one of toks. */
  predicate Peek(s: string, i: nat, toks: string)
    requires i <= |s|
  {
    var p := Skip(s, i);
    p < |s| && s[p] in toks
  }

  datatype Redirection = Redirection(op: Op, file: Span)

  function Wrap(c: Cmd<Span>, rs: seq<Redirection>): Cmd<Span> {
    if rs == [] then c
    else Redir(Wrap(c, rs[..|rs| - 1]), rs[|rs| - 1].op, rs[|rs| - 1].file)
  }

  /** Every word of the tree has a good place. */
  ghost predicate AllGood(s: string, c: Cmd<Span>) {
    match c
    case Exec(argv) => forall k :: 0 <= k < |argv| ==> Good(s, argv[k])
    case Redir(d, _, file) => AllGood(s, d) && Good(s, file)
    case Pipe(l, r) => AllGood(s, l) && AllGood(s, r)
    case List(l, r) => AllGood(s, l) && AllGood(s, r)
    case Back(d) => AllGood(s, d)
  }

  ghost predicate GoodRedirs(s: string, rs: seq<Redirection>) {
    forall k :: 0 <= k < |rs| ==> Good(s, rs[k].file)
  }

  lemma {:induction false} WrapGood(s: string, c: Cmd<Span>, rs: seq<Redirection>)
    requires AllGood(s, c) && GoodRedirs(s, rs)
    ensures AllGood(s, Wrap(c, rs))
    decreases |rs|
  {
    if rs != [] {
      WrapGood(s, c, rs[..|rs| - 1]);
    }
  }

  function OpOf(kind: char): Op {
    if kind == '<' then In else if kind == '>' then Out else Append
  }

  /** parseredirs: the redirections from i on, after those in rs. */
  function Redirs(s: string, i: nat, rs: seq<Redirection>): (r: Result<seq<Redirection>>)
    requires i <= |s|
    ensures r.Ok? ==> i <= r.next <= |s| && (GoodRedirs(s, rs) ==> GoodRedirs(s, r.value))
    decreases |s| - i
  {
    if Peek(s, i, "<>") then
      var t := GetToken(s, i);
      var f := GetToken(s, t.next);
      if f.kind != 'a' then Err(MissingFile)
      else Redirs(s, f.next, rs + [Redirection(OpOf(t.kind), Span(f.q, f.eq))])
    else Ok(rs, Skip(s, i))
  }

  /** parseexec without parentheses, from a point where redirections may come. */
  function Simple(s: string, i: nat, argv: seq<Span>, rs: seq<Redirection>): (r: Result<Cmd<Span>>)
    requires i <= |s|
    ensures r.Ok? ==> i <= r.next <= |s|
    decreases |s| - i, 1
  {
    var red := Redirs(s, i, rs);
    if red.Err? then Err(red.error) else Args(s, red.next, argv, red.value)
  }

  /** The same from a point where an argument may come. */
  function Args(s: string, i: nat, argv: seq<Span>, rs: seq<Redirection>): (r: Result<Cmd<Span>>)
    requires i <= |s|
    ensures r.Ok? ==> i <= r.next <= |s|
    decreases |s| - i, 0
  {
    if Peek(s, i, "|)&;") then Ok(Wrap(Exec(argv), rs), Skip(s, i))
    else
      var t := GetToken(s, i);
      if t.kind == '\0' then Ok(Wrap(Exec(argv), rs), t.next)
      else if t.kind != 'a' then Err(Syntax)
      else if |argv| + 1 >= MAXARGS then Err(TooManyArgs)
      else Simple(s, t.next, argv + [Span(t.q, t.eq)], rs)
  }

  /** The redirections after a parenthesised command. */
  function BlockTail(s: string, i: nat, c: Cmd<Span>, rs: seq<Redirection>): (r: Result<Cmd<Span>>)
    requires i <= |s|
    ensures r.Ok? ==> i <= r.next <= |s|
  {
    var red := Redirs(s, i, rs);
    if red.Err? then Err(red.error) else Ok(Wrap(c, red.value), red.next)
  }

  /** parseblock. */
  function Block(s: string, i: nat): (r: Result<Cmd<Span>>)
    requires i <= |s| && Peek(s, i, "(")
    ensures r.Ok? ==> i <= r.next <= |s|
    decreases |s| - i, 0
  {
    var line := Line(s, GetToken(s, i).next);
    if line.Err? then line
    else if !Peek(s, line.next, ")") then Err(MissingParen)
    else BlockTail(s, GetToken(s, line.next).next, line.value, [])
  }

  /** parseexec. */
  function Unit(s: string, i: nat): (r: Result<Cmd<Span>>)
    requires i <= |s|
    ensures r.Ok? ==> i <= r.next <= |s|
    decreases |s| - i, 1
  {
    if Peek(s, i, "(") then Block(s, i) else Simple(s, i, [], [])
  }

  /** parsepipe. */
  function Pipeline(s: string, i: nat): (r: Result<Cmd<Span>>)
    requires i <= |s|
    ensures r.Ok? ==> i <= r.next <= |s|
    decreases |s| - i, 2
  {
    var left := Unit(s, i);
    if left.Err? || !Peek(s, left.next, "|") then
      if left.Err? then left else Ok(left.value, Skip(s, left.next))
    else
      var right := Pipeline(s, GetToken(s, left.next).next);
      if right.Err? then right else Ok(Pipe(left.value, right.value), right.next)
  }

  /** The & loop of parseline. */
  function Amps(s: string, i: nat, c: Cmd<Span>): (r: Result<Cmd<Span>>)
    requires i <= |s|
    ensures r.Ok? && i <= r.next <= |s|
    decreases |s| - i
  {
    if Peek(s, i, "&") then Amps(s, GetToken(s, i).next, Back(c)) else Ok(c, Skip(s, i))
  }

  /** parseline. */
  function Line(s: string, i: nat): (r: Result<Cmd<Span>>)
    requires i <= |s|
    ensures r.Ok? ==> i <= r.next <= |s|
    decreases |s| - i, 3
  {
    var first := Pipeline(s, i);
    if first.Err? then first
    else
      var amps := Amps(s, first.next, first.value);
      if !Peek(s, amps.next, ";") then Ok(amps.value, Skip(s, amps.next))
      else
        var rest := Line(s, GetToken(s, amps.next).next);
        if rest.Err? then rest else Ok(List(amps.value, rest.value), rest.next)
  }

  /** parsecmd, before nulterminate. */
  function Command(s: string): (r: Result<Cmd<Span>>) {
    var line := Line(s, 0);
    if line.Err? then line
    else if Skip(s, line.next) != |s| then Err(Syntax)
    else Ok(line.value, |s|)
  }

  lemma SkipTwice(s: string, i: nat)
    requires i <= |s|
    ensures Skip(s, Skip(s, i)) == Skip(s, i)
  {
    assert Skip(s, i) < |s| ==> !Space(s[Skip(s, i)]);
  }

  /** Leading white space makes no difference to the routines. */
  lemma SkipTokens(s: string, i: nat)
    requires i <= |s|
    ensures GetToken(s, Skip(s, i)) == GetToken(s, i)
    ensures forall toks :: Peek(s, Skip(s, i), toks) == Peek(s, i, toks)
  {
    SkipTwice(s, i);
  }

  lemma SkipRedirs(s: string, i: nat, rs: seq<Redirection>)
    requires i <= |s|
    ensures Redirs(s, Skip(s, i), rs) == Redirs(s, i, rs)
  {
    hide GetToken, Peek, Skip;
    SkipTokens(s, i);
    SkipTwice(s, i);
  }

  lemma SkipAmps(s: string, i: nat, c: Cmd<Span>)
    requires i <= |s|
    ensures Amps(s, Skip(s, i), c) == Amps(s, i, c)
  {
    hide GetToken, Peek, Skip;
    SkipTokens(s, i);
    SkipTwice(s, i);
  }

  lemma {:induction false} SimpleGood(s: string, i: nat, argv: seq<Span>, rs: seq<Redirection>)
    requires i <= |s| && AllGood(s, Exec(argv)) && GoodRedirs(s, rs)
    ensures Simple(s, i, argv, rs).Ok? ==> AllGood(s, Simple(s, i, argv, rs).value)
    decreases |s| - i
  {
    var red := Redirs(s, i, rs);
    if red.Ok? {
      WrapGood(s, Exec(argv), red.value);
      var t := GetToken(s, red.next);
      if t.kind == 'a' {
        SimpleGood(s, t.next, argv + [Span(t.q, t.eq)], red.value);
      }
    }
  }

  lemma {:induction false} UnitGood(s: string, i: nat)
    requires i <= |s|
    ensures Unit(s, i).Ok? ==> AllGood(s, Unit(s, i).value)
    decreases |s| - i, 1
  {
    if Peek(s, i, "(") {
      var start := GetToken(s, i).next;
      LineGood(s, start);
      var line := Line(s, start);
      if line.Ok? && Peek(s, line.next, ")") {
        var red := Redirs(s, GetToken(s, line.next).next, []);
        if red.Ok? {
          WrapGood(s, line.value, red.value);
        }
      }
    } else {
      SimpleGood(s, i, [], []);
    }
  }

  lemma {:induction false} PipelineGood(s: string, i: nat)
    requires i <= |s|
    ensures Pipeline(s, i).Ok? ==> AllGood(s, Pipeline(s, i).value)
    decreases |s| - i, 2
  {
    UnitGood(s, i);
    var left := Unit(s, i);
    if left.Ok? && Peek(s, left.next, "|") {
      PipelineGood(s, GetToken(s, left.next).next);
    }
  }

  lemma {:induction false} AmpsGood(s: string, i: nat, c: Cmd<Span>)
    requires i <= |s| && AllGood(s, c)
    ensures AllGood(s, Amps(s, i, c).value)
    decreases |s| - i
  {
    if Peek(s, i, "&") {
      AmpsGood(s, GetToken(s, i).next, Back(c));
    }
  }

  /** Every word the parser records is a maximal run of word characters. */
  lemma {:induction false} LineGood(s: string, i: nat)
    requires i <= |s|
    ensures Line(s, i).Ok? ==> AllGood(s, Line(s, i).value)
    decreases |s| - i, 3
  {
    PipelineGood(s, i);
    var first := Pipeline(s, i);
    if first.Ok? {
      AmpsGood(s, first.next, first.value);
      var amps := Amps(s, first.next, first.value);
      if Peek(s, amps.next, ";") {
        LineGood(s, GetToken(s, amps.next).next);
      }
    }
  }
}
