/** Simple commands in which arguments and redirections come in any order and with any white
    space, as in `echo >f hi`. */
module ShellMix {
  import opened ShellGrammar
  import opened ShellPrint

  /** A word, or a redirection with the place of its operator. */
  datatype Item = Arg(word: Span) | Red(op: Op, at: nat, file: Span)

  ghost predicate Blank(s: string, i: nat, j: nat) {
    i <= j <= |s| && forall k :: i <= k < j ==> Space(s[k])
  }

  /** From i to j the text is these items, with white space before and after each. */
  ghost predicate Laid(s: string, i: nat, items: seq<Item>, j: nat)
    decreases |items|
  {
    if items == [] then Blank(s, i, j)
    else match items[0]
      case Arg(w) => Blank(s, i, w.q) && Good(s, w) && Laid(s, w.eq, items[1..], j)
      case Red(op, at, f) =>
        var e := at + |OpText(op)|;
        && Blank(s, i, at) && At(s, at, OpText(op)) && (op.Out? && e < |s| ==> s[e] != '>')
        && Blank(s, e, f.q) && Good(s, f) && Laid(s, f.eq, items[1..], j)
  }

  function ArgsOf(items: seq<Item>): seq<Span> {
    if items == [] then [] else if items[0].Arg? then [items[0].word] + ArgsOf(items[1..]) else ArgsOf(items[1..])
  }

  function RedsOf(items: seq<Item>): seq<Redirection> {
    if items == [] then []
    else if items[0].Arg? then RedsOf(items[1..])
    else [Redirection(items[0].op, items[0].file)] + RedsOf(items[1..])
  }

  /** A simple command ends here. */
  predicate Stops(s: string, j: nat) {
    j == |s| || (j < |s| && s[j] in "|)&;")
  }

  lemma {:induction false} SkipTo(s: string, i: nat, j: nat)
    requires Blank(s, i, j) && (j < |s| ==> !Space(s[j]))
    ensures Skip(s, i) == j
    decreases j - i
  {
    if i < j {
      SkipTo(s, i + 1, j);
    }
  }

  lemma {:induction false} WordTo(s: string, i: nat, j: nat)
    requires i <= j <= |s| && (forall k :: i <= k < j ==> WordChar(s[k])) && (j < |s| ==> !WordChar(s[j]))
    ensures WordEnd(s, i) == j
    decreases j - i
  {
    if i < j {
      WordTo(s, i + 1, j);
    }
  }

  lemma WordToken(s: string, i: nat, w: Span)
    requires Blank(s, i, w.q) && Good(s, w)
    ensures Skip(s, i) == w.q && GetToken(s, i) == Token('a', w.q, w.eq, Skip(s, w.eq))
  {
    SkipTo(s, i, w.q);
    WordTo(s, w.q, w.eq);
    assert WordChar(s[w.q]);
  }

  lemma RedToken(s: string, i: nat, op: Op, at: nat)
    requires Blank(s, i, at) && At(s, at, OpText(op))
    requires var e := at + |OpText(op)|; op.Out? && e < |s| ==> s[e] != '>'
    ensures var e, t := at + |OpText(op)|, GetToken(s, i);
            Peek(s, i, "<>") && OpOf(t.kind) == op && t.next == Skip(s, e)
  {
    hide Skip, WordEnd, Good, Blank;
    var text := OpText(op);
    assert s[at] == text[0] == if op.In? then '<' else '>';
    assert !Space(s[at]);
    RedAt(s, i, at);
    match op
    case In =>
    case Out =>
    case Append => assert s[at + 1] == text[1] == '>';
  }

  lemma RedAt(s: string, i: nat, at: nat)
    requires Blank(s, i, at) && at < |s| && !Space(s[at])
    ensures Skip(s, i) == at
  {
    SkipTo(s, i, at);
  }

  lemma RedStep(s: string, i: nat, op: Op, at: nat, f: Span, rs: seq<Redirection>)
    requires Blank(s, i, at) && At(s, at, OpText(op))
    requires var e := at + |OpText(op)|; (op.Out? && e < |s| ==> s[e] != '>') && Blank(s, e, f.q) && Good(s, f)
    ensures Redirs(s, i, rs) == Redirs(s, f.eq, rs + [Redirection(op, f)])
  {
    hide GetToken, Skip, Peek, OpOf, OpText, At;
    var e := at + |OpText(op)|;
    RedToken(s, i, op, at);
    WordToken(s, e, f);
    SkipTokens(s, e);
    SkipRedirs(s, f.eq, rs + [Redirection(op, f)]);
  }

  lemma RedSimple(s: string, i: nat, item: Item, argv: seq<Span>, rs: seq<Redirection>)
    requires item.Red? && Blank(s, i, item.at) && At(s, item.at, OpText(item.op))
    requires var e := item.at + |OpText(item.op)|;
             (item.op.Out? && e < |s| ==> s[e] != '>') && Blank(s, e, item.file.q) && Good(s, item.file)
    ensures Simple(s, i, argv, rs) == Simple(s, item.file.eq, argv, rs + [Redirection(item.op, item.file)])
  {
    hide Redirs, Args;
    RedStep(s, i, item.op, item.at, item.file, rs);
  }

  /** What a simple command with those arguments and redirections is read as. */
  function Mixed(argv: seq<Span>, rs: seq<Redirection>, j: nat): Result<Cmd<Span>> {
    if |argv| >= MAXARGS then Err(TooManyArgs) else Ok(Wrap(Exec(argv), rs), j)
  }

  lemma {:induction false} MixFrom(s: string, i: nat, items: seq<Item>, j: nat, argv: seq<Span>, rs: seq<Redirection>)
    requires i <= |s| && Laid(s, i, items, j) && Stops(s, j) && |argv| < MAXARGS
    ensures Simple(s, i, argv, rs) == Mixed(argv + ArgsOf(items), rs + RedsOf(items), j)
    decreases |items|
  {
    hide GetToken, Skip, Redirs, Simple, Args, Wrap, OpText, At, Blank, WordChar;
    if items == [] {
      EndStep(s, i, j, argv, rs);
      assert argv + [] == argv && rs + [] == rs;
    } else if items[0].Arg? {
      var w := items[0].word;
      ArgStep(s, i, w, argv, rs);
      assert argv + ArgsOf(items) == (argv + [w]) + ArgsOf(items[1..]);
      if |argv| + 1 < MAXARGS {
        MixFrom(s, w.eq, items[1..], j, argv + [w], rs);
      }
    } else {
      var r := Redirection(items[0].op, items[0].file);
      RedSimple(s, i, items[0], argv, rs);
      assert rs + RedsOf(items) == (rs + [r]) + RedsOf(items[1..]);
      MixFrom(s, items[0].file.eq, items[1..], j, argv, rs + [r]);
    }
  }

  lemma EndStep(s: string, i: nat, j: nat, argv: seq<Span>, rs: seq<Redirection>)
    requires Blank(s, i, j) && Stops(s, j)
    ensures Simple(s, i, argv, rs) == Ok(Wrap(Exec(argv), rs), j)
  {
    SkipTo(s, i, j);
    SkipTo(s, j, j);
  }

  lemma ArgStep(s: string, i: nat, w: Span, argv: seq<Span>, rs: seq<Redirection>)
    requires Blank(s, i, w.q) && Good(s, w)
    ensures Simple(s, i, argv, rs) ==
            if |argv| + 1 >= MAXARGS then Err(TooManyArgs) else Simple(s, w.eq, argv + [w], rs)
  {
    hide GetToken, Skip;
    WordToken(s, i, w);
    WordToken(s, w.q, w);
    assert WordChar(s[w.q]);
    assert Redirs(s, i, rs) == Ok(rs, w.q);
    SkipParts(s, w.eq, argv + [w], rs, Exec([]));
  }

  /** ANY MIXTURE. However its words and redirections are mixed and spaced, a simple command is
      read as all its words in order, under all its redirections in order, the last one
      outermost; a tenth word is refused. */
  lemma AnyMixture(s: string, i: nat, items: seq<Item>, j: nat)
    requires i <= |s| && Laid(s, i, items, j) && Stops(s, j)
    ensures Simple(s, i, [], []) == Mixed(ArgsOf(items), RedsOf(items), j)
  {
    MixFrom(s, i, items, j, [], []);
    assert [] + ArgsOf(items) == ArgsOf(items) && [] + RedsOf(items) == RedsOf(items);
  }
}
