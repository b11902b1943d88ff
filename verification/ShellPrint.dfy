/** A canonical printing of command trees, with parentheses only where the grammar
    needs them, and its inverse: the parser gives every tree back. */
module ShellPrint {
  import opened ShellGrammar

  ghost predicate Word(w: string) {
    w != [] && forall k :: 0 <= k < |w| ==> WordChar(w[k])
  }

  /** The words are words. */
  ghost predicate Worded(c: Cmd<string>) {
    match c
    case Exec(argv) => forall k :: 0 <= k < |argv| ==> Word(argv[k])
    case Redir(d, _, file) => Worded(d) && Word(file)
    case Pipe(l, r) => Worded(l) && Worded(r)
    case List(l, r) => Worded(l) && Worded(r)
    case Back(d) => Worded(d)
  }

  /** No command has too many arguments. */
  predicate Small(c: Cmd<string>) {
    match c
    case Exec(argv) => |argv| < MAXARGS
    case Redir(d, _, _) => Small(d)
    case Pipe(l, r) => Small(l) && Small(r)
    case List(l, r) => Small(l) && Small(r)
    case Back(d) => Small(d)
  }

  ghost predicate Proper(c: Cmd<string>) {
    Worded(c) && Small(c)
  }

  /** The routine that a tree is for: 3 parseline, 2 its & loop, 1 parsepipe,
      0 parseexec. */
  function Level(c: Cmd<string>): nat {
    match c
    case List(_, _) => 3
    case Back(_) => 2
    case Pipe(_, _) => 1
    case _ => 0
  }

  function Words(argv: seq<string>): string {
    if argv == [] then "" else Words(argv[..|argv| - 1]) + " " + argv[|argv| - 1]
  }

  function OpText(op: Op): string {
    match op case In => "<" case Out => ">" case Append => ">>"
  }

  function Print(c: Cmd<string>, level: nat): string
    decreases c, if Level(c) > level then 1 else 0
  {
    if Level(c) > level then "(" + Print(c, 3) + ")"
    else
      match c
      case Exec(argv) => Words(argv)
      case Redir(d, op, file) => Print(d, 0) + OpText(op) + file
      case Pipe(l, r) => Print(l, 0) + "|" + Print(r, 1)
      case List(l, r) => Print(l, 2) + ";" + Print(r, 3)
      case Back(d) => Print(d, 2) + "&"
  }

  /** The tree with the words that the places name. */
  function Text(s: string, w: Span): string {
    if w.q <= w.eq <= |s| then s[w.q..w.eq] else ""
  }

  function Spelled(s: string, c: Cmd<Span>): Cmd<string> {
    match c
    case Exec(argv) => Exec(seq(|argv|, k requires 0 <= k < |argv| => Text(s, argv[k])))
    case Redir(d, op, file) => Redir(Spelled(s, d), op, Text(s, file))
    case Pipe(l, r) => Pipe(Spelled(s, l), Spelled(s, r))
    case List(l, r) => List(Spelled(s, l), Spelled(s, r))
    case Back(d) => Back(Spelled(s, d))
  }

  /** t stands in s at i. */
  ghost predicate At(s: string, i: nat, t: string) {
    i + |t| <= |s| && s[i..i + |t|] == t
  }

  lemma AtSplit(s: string, i: nat, t: string, u: string)
    requires At(s, i, t + u)
    ensures At(s, i, t) && At(s, i + |t|, u)
  {
    assert s[i..i + |t|] == (t + u)[..|t|];
    assert s[i + |t|..i + |t| + |u|] == (t + u)[|t|..];
  }

  lemma AtHead(s: string, i: nat, t: string)
    requires At(s, i, t) && t != ""
    ensures s[i] == t[0]
  {
    assert s[i..i + |t|][0] == t[0];
  }

  lemma AtJoin(s: string, i: nat, t: string, ch: char, u: string)
    requires At(s, i, t + [ch] + u)
    ensures At(s, i, t) && s[i + |t|] == ch && At(s, i + |t| + 1, u)
  {
    assert t + [ch] + u == t + ([ch] + u);
    AtSplit(s, i, t, [ch] + u);
    AtSplit(s, i + |t|, [ch], u);
    assert s[i + |t|..i + |t| + 1][0] == [ch][0];
  }

  /** What follows at j is none of a word. */
  ghost predicate Ended(s: string, j: nat) {
    j <= |s| && (j < |s| ==> !WordChar(s[j]))
  }

  ghost predicate Follows(s: string, j: nat, stops: string) {
    j <= |s| && (j < |s| ==> s[j] in stops)
  }

  /** A word in the text is one token. */
  lemma {:induction false} WordEndAt(s: string, i: nat, w: string)
    requires At(s, i, w) && (forall k :: 0 <= k < |w| ==> WordChar(w[k])) && Ended(s, i + |w|)
    ensures WordEnd(s, i) == i + |w|
    decreases |w|
  {
    if w != [] {
      assert s[i] == w[0];
      AtSplit(s, i, w[..1], w[1..]);
      assert w == w[..1] + w[1..];
      WordEndAt(s, i + 1, w[1..]);
    }
  }

  lemma TokenWord(s: string, i: nat, w: string)
    requires At(s, i, w) && Word(w) && Ended(s, i + |w|)
    ensures Skip(s, i) == i && GetToken(s, i) == Token('a', i, i + |w|, Skip(s, i + |w|))
    ensures i < |s| && Text(s, Span(i, i + |w|)) == w && WordChar(s[i])
  {
    assert s[i] == w[0];
    WordEndAt(s, i, w);
  }

  lemma SkipParts(s: string, i: nat, argv: seq<Span>, rs: seq<Redirection>, c: Cmd<Span>)
    requires i <= |s|
    ensures Simple(s, Skip(s, i), argv, rs) == Simple(s, i, argv, rs)
    ensures BlockTail(s, Skip(s, i), c, rs) == BlockTail(s, i, c, rs)
  {
    hide Redirs, Args, Skip, Wrap;
    SkipRedirs(s, i, rs);
  }

  lemma SkipWhole(s: string, i: nat)
    requires i <= |s|
    ensures Unit(s, Skip(s, i)) == Unit(s, i)
    ensures Pipeline(s, Skip(s, i)) == Pipeline(s, i)
    ensures Line(s, Skip(s, i)) == Line(s, i)
  {
    hide GetToken, Peek, Skip, Simple, Redirs, Amps;
    SkipTokens(s, i);
    SkipParts(s, i, [], [], Exec([]));
    assert Unit(s, Skip(s, i)) == Unit(s, i);
    assert Pipeline(s, Skip(s, i)) == Pipeline(s, i);
  }

  /** A command read in part: more redirections may follow, and arguments if it is a
      simple one. */
  datatype Pending = SimpleP(argv: seq<Span>, rs: seq<Redirection>) | BlockP(core: Cmd<Span>, rs: seq<Redirection>)

  function Resume(s: string, j: nat, p: Pending): Result<Cmd<Span>>
    requires j <= |s|
  {
    match p
    case SimpleP(argv, rs) => Simple(s, j, argv, rs)
    case BlockP(core, rs) => BlockTail(s, j, core, rs)
  }

  function Tree(p: Pending): Cmd<Span> {
    match p
    case SimpleP(argv, rs) => Wrap(Exec(argv), rs)
    case BlockP(core, rs) => Wrap(core, rs)
  }

  lemma StopTokens(s: string, j: nat)
    requires Follows(s, j, "|)&;")
    ensures Skip(s, j) == j && !Peek(s, j, "<>") && !Peek(s, j, "(")
    ensures forall toks :: Peek(s, j, toks) <==> j < |s| && s[j] in toks
    ensures if j < |s| then Peek(s, j, "|)&;") else !Peek(s, j, "|)&;") && GetToken(s, j) == Token('\0', j, j, j)
  {
  }

  lemma ResumeStop(s: string, j: nat, p: Pending)
    requires Follows(s, j, "|)&;")
    ensures Resume(s, j, p) == Ok(Tree(p), j)
  {
    hide GetToken, Peek, Skip, Wrap;
    StopTokens(s, j);
    assert Redirs(s, j, p.rs) == Ok(p.rs, j);
    match p
    case SimpleP(argv, rs) =>
      assert Args(s, j, argv, rs) == Ok(Wrap(Exec(argv), rs), j);
    case BlockP(core, rs) =>
      assert BlockTail(s, j, core, rs) == Ok(Wrap(core, rs), j);
  }

  lemma OpToken(s: string, m: nat, op: Op)
    requires At(s, m, OpText(op)) && m + |OpText(op)| < |s| && WordChar(s[m + |OpText(op)|])
    ensures Peek(s, m, "<>") && OpOf(GetToken(s, m).kind) == op && GetToken(s, m).next == m + |OpText(op)|
  {
    var text := OpText(op);
    assert s[m..m + |text|][0] == text[0] && s[m] == text[0];
    assert Skip(s, m) == m && Skip(s, m + |text|) == m + |text|;
    match op
    case In =>
      assert GetToken(s, m) == Token('<', m, m + 1, m + 1);
    case Out =>
      assert s[m + 1] != '>';
      assert GetToken(s, m) == Token('>', m, m + 1, m + 1);
    case Append =>
      assert s[m..m + |text|][1] == text[1] && s[m + 1] == text[1];
      assert GetToken(s, m) == Token('+', m, m + 2, m + 2);
  }

  lemma OpTokens(s: string, m: nat, op: Op, file: string)
    requires At(s, m, OpText(op) + file) && Word(file) && Ended(s, m + |OpText(op)| + |file|)
    ensures var k := m + |OpText(op)|;
      && Peek(s, m, "<>") && OpOf(GetToken(s, m).kind) == op && GetToken(s, m).next == k
      && Text(s, Span(k, k + |file|)) == file
      && GetToken(s, k) == Token('a', k, k + |file|, Skip(s, k + |file|))
  {
    hide GetToken, Peek, Skip, OpOf, Text, OpText, At, Word, Ended, WordChar;
    AtSplit(s, m, OpText(op), file);
    TokenWord(s, m + |OpText(op)|, file);
    OpToken(s, m, op);
  }

  lemma RedirsOne(s: string, m: nat, rs: seq<Redirection>, op: Op, file: string)
    requires At(s, m, OpText(op) + file) && Word(file) && Ended(s, m + |OpText(op)| + |file|)
    ensures var k := m + |OpText(op)|;
      && Text(s, Span(k, k + |file|)) == file
      && Redirs(s, m, rs) == Redirs(s, k + |file|, rs + [Redirection(op, Span(k, k + |file|))])
  {
    hide GetToken, Peek, Skip, OpOf, Text;
    OpTokens(s, m, op, file);
    var k := m + |OpText(op)|;
    SkipRedirs(s, k + |file|, rs + [Redirection(op, Span(k, k + |file|))]);
  }

  lemma ResumeRedir(s: string, m: nat, p: Pending, op: Op, file: string) returns (q: Pending)
    requires At(s, m, OpText(op) + file) && Word(file) && Ended(s, m + |OpText(op)| + |file|)
    ensures Resume(s, m, p) == Resume(s, m + |OpText(op)| + |file|, q)
    ensures Spelled(s, Tree(q)) == Redir(Spelled(s, Tree(p)), op, file)
  {
    hide Redirs, Args, At, Word, Ended, Text;
    RedirsOne(s, m, p.rs, op, file);
    var k := m + |OpText(op)|;
    var r := Redirection(op, Span(k, k + |file|));
    q := p.(rs := p.rs + [r]);
    assert (p.rs + [r])[..|p.rs|] == p.rs;
  }

  /** One argument: a space and a word. */
  lemma ArgOne(s: string, m: nat, w: string, argv: seq<Span>)
    requires At(s, m, " " + w) && Word(w) && Ended(s, m + 1 + |w|) && |argv| + 1 < MAXARGS
    ensures Text(s, Span(m + 1, m + 1 + |w|)) == w
    ensures Simple(s, m, argv, []) == Simple(s, m + 1 + |w|, argv + [Span(m + 1, m + 1 + |w|)], [])
  {
    hide GetToken, Peek, Skip, Text, Wrap;
    ArgTokens(s, m, w);
    assert Redirs(s, m, []) == Ok([], m + 1);
    SkipParts(s, m + 1 + |w|, argv + [Span(m + 1, m + 1 + |w|)], [], Exec([]));
  }

  lemma ArgTokens(s: string, m: nat, w: string)
    requires At(s, m, " " + w) && Word(w) && Ended(s, m + 1 + |w|)
    ensures Text(s, Span(m + 1, m + 1 + |w|)) == w
    ensures Skip(s, m) == m + 1 && !Peek(s, m, "<>") && !Peek(s, m, "(") && !Peek(s, m + 1, "|)&;")
    ensures GetToken(s, m + 1) == Token('a', m + 1, m + 1 + |w|, Skip(s, m + 1 + |w|))
  {
    AtSplit(s, m, " ", w);
    assert s[m] == ' ';
    TokenWord(s, m + 1, w);
  }

  /** The arguments of a simple command. */
  lemma {:induction false} WordsBack(s: string, i: nat, argv: seq<string>) returns (spans: seq<Span>)
    requires At(s, i, Words(argv)) && Ended(s, i + |Words(argv)|) && Proper(Exec(argv))
    ensures Simple(s, i, [], []) == Simple(s, i + |Words(argv)|, spans, [])
    ensures |spans| == |argv| && forall k :: 0 <= k < |argv| ==> Text(s, spans[k]) == argv[k]
    decreases |argv|
  {
    hide Simple, Text;
    if argv == [] {
      spans := [];
    } else {
      var init, w := argv[..|argv| - 1], argv[|argv| - 1];
      var m := i + |Words(init)|;
      assert Words(argv) == Words(init) + (" " + w);
      AtSplit(s, i, Words(init), " " + w);
      assert s[m] == (" " + w)[0];
      var before := WordsBack(s, i, init);
      ArgOne(s, m, w, before);
      spans := before + [Span(m + 1, m + 1 + |w|)];
    }
  }

  /** How far a tree is from the level it is printed at; parentheses come first. */
  ghost function Rank(c: Cmd<string>, level: nat): nat {
    if Level(c) > level then 4 + level else level
  }

  /** A one-character token. */
  lemma CharToken(s: string, j: nat)
    requires j < |s| && s[j] in "|();&"
    ensures Skip(s, j) == j && GetToken(s, j) == Token(s[j], j, j + 1, Skip(s, j + 1))
    ensures forall toks :: Peek(s, j, toks) <==> s[j] in toks
  {
  }

  lemma {:induction false} UnitBack(s: string, i: nat, c: Cmd<string>) returns (p: Pending)
    requires At(s, i, Print(c, 0)) && Proper(c) && Follows(s, i + |Print(c, 0)|, "<>|)&;")
    ensures Unit(s, i) == Resume(s, i + |Print(c, 0)|, p) && Spelled(s, Tree(p)) == c
    decreases c, Rank(c, 0)
  {
    hide Unit, Resume, Tree, Spelled, Words;
    if Level(c) > 0 {
      p := ParenBack(s, i, c);
    } else if c.Exec? {
      p := ExecBack(s, i, c.argv);
    } else {
      var m := i + |Print(c.cmd, 0)|;
      assert Print(c, 0) == Print(c.cmd, 0) + (OpText(c.op) + c.file);
      AtSplit(s, i, Print(c.cmd, 0), OpText(c.op) + c.file);
      assert s[m] == (OpText(c.op) + c.file)[0];
      var before := UnitBack(s, i, c.cmd);
      p := ResumeRedir(s, m, before, c.op, c.file);
    }
  }

  lemma StopEnds(s: string, j: nat)
    requires Follows(s, j, "<>|)&;")
    ensures Ended(s, j)
  {
  }

  lemma ExecNoParen(s: string, i: nat, argv: seq<string>)
    requires At(s, i, Words(argv)) && Proper(Exec(argv)) && Follows(s, i + |Words(argv)|, "<>|)&;")
    ensures !Peek(s, i, "(")
  {
    if argv != [] {
      FirstWord(s, i, argv);
    } else {
      assert Skip(s, i) == i;
    }
  }

  lemma ExecBack(s: string, i: nat, argv: seq<string>) returns (p: Pending)
    requires At(s, i, Words(argv)) && Proper(Exec(argv)) && Follows(s, i + |Words(argv)|, "<>|)&;")
    ensures Unit(s, i) == Resume(s, i + |Words(argv)|, p) && Spelled(s, Tree(p)) == Exec(argv)
  {
    hide At, Words, Peek, Skip, GetToken, Simple, Follows, Ended, Text;
    StopEnds(s, i + |Words(argv)|);
    var spans := WordsBack(s, i, argv);
    p := SimpleP(spans, []);
    ExecNoParen(s, i, argv);
    assert Spelled(s, Exec(spans)).argv == argv;
  }

  lemma {:induction false} FirstWord(s: string, i: nat, argv: seq<string>)
    requires At(s, i, Words(argv)) && argv != [] && forall k :: 0 <= k < |argv| ==> Word(argv[k])
    ensures !Peek(s, i, "(")
    decreases |argv|
  {
    var init, w := argv[..|argv| - 1], argv[|argv| - 1];
    assert Words(argv) == Words(init) + (" " + w);
    AtSplit(s, i, Words(init), " " + w);
    if init == [] {
      assert s[i] == (" " + w)[0] && s[i + 1] == (" " + w)[1];
      assert Skip(s, i) == i + 1;
    } else {
      FirstWord(s, i, init);
    }
  }

  lemma BlockStep(s: string, i: nat, m: nat, core: Cmd<Span>)
    requires i < m < |s| && s[i] == '(' && s[m] == ')' && Line(s, i + 1) == Ok(core, m)
    ensures Unit(s, i) == BlockTail(s, m + 1, core, [])
  {
    hide GetToken, Peek, Skip, Line, BlockTail, Simple, Pipeline;
    CharToken(s, i);
    CharToken(s, m);
    SkipWhole(s, i + 1);
    SkipParts(s, m + 1, [], [], core);
  }

  lemma PipeStep(s: string, i: nat, m: nat, j: nat, left: Cmd<Span>, right: Cmd<Span>)
    requires i <= m < |s| && Unit(s, i) == Ok(left, m) && s[m] == '|' && Pipeline(s, m + 1) == Ok(right, j)
    ensures Pipeline(s, i) == Ok(Pipe(left, right), j)
  {
    hide GetToken, Peek, Skip, Unit;
    CharToken(s, m);
    SkipWhole(s, m + 1);
  }

  lemma PipeEnd(s: string, i: nat, j: nat, left: Cmd<Span>)
    requires i <= j && Follows(s, j, ")&;") && Unit(s, i) == Ok(left, j)
    ensures Pipeline(s, i) == Ok(left, j)
  {
    hide GetToken, Peek, Skip, Unit;
    StopTokens(s, j);
  }

  lemma LineStep(s: string, i: nat, m: nat, j: nat, left: Cmd<Span>, right: Cmd<Span>)
    requires i <= m < |s| && s[m] == ';' && Line(s, m + 1) == Ok(right, j)
    requires var first := Pipeline(s, i); first.Ok? && Amps(s, first.next, first.value) == Amps(s, m, left)
    ensures Line(s, i) == Ok(List(left, right), j)
  {
    hide GetToken, Peek, Skip, Pipeline;
    CharToken(s, m);
    assert Amps(s, m, left) == Ok(left, m);
    SkipWhole(s, m + 1);
  }

  lemma LineEnd(s: string, i: nat, j: nat, c: Cmd<Span>)
    requires i <= j && Follows(s, j, ")")
    requires var first := Pipeline(s, i); first.Ok? && Amps(s, first.next, first.value) == Amps(s, j, c)
    ensures Line(s, i) == Ok(c, j)
  {
    hide GetToken, Peek, Skip, Pipeline;
    StopTokens(s, j);
    assert Amps(s, j, c) == Ok(c, j);
  }

  lemma {:induction false} ParenBack(s: string, i: nat, c: Cmd<string>) returns (p: Pending)
    requires At(s, i, Print(c, 0)) && Proper(c) && Level(c) > 0
    ensures Unit(s, i) == Resume(s, i + |Print(c, 0)|, p) && Spelled(s, Tree(p)) == c
    decreases c, 4, 0
  {
    hide Line, Unit, BlockTail, Spelled, Words;
    var m := i + 1 + |Print(c, 3)|;
    assert Print(c, 0) == "(" + (Print(c, 3) + ")");
    AtSplit(s, i, "(", Print(c, 3) + ")");
    AtSplit(s, i + 1, Print(c, 3), ")");
    AtHead(s, i, "(");
    AtHead(s, m, ")");
    var core := LineBack(s, i + 1, c);
    p := BlockP(core, []);
    BlockStep(s, i, m, core);
  }

  lemma {:induction false} PipelineBack(s: string, i: nat, c: Cmd<string>) returns (d: Cmd<Span>)
    requires At(s, i, Print(c, 1)) && Proper(c) && Follows(s, i + |Print(c, 1)|, ")&;")
    ensures Pipeline(s, i) == Ok(d, i + |Print(c, 1)|) && Spelled(s, d) == c
    decreases c, Rank(c, 1)
  {
    hide Pipeline, Unit, Tree, Words, Resume;
    var j := i + |Print(c, 1)|;
    if c.Pipe? {
      var m := i + |Print(c.left, 0)|;
      AtJoin(s, i, Print(c.left, 0), '|', Print(c.right, 1));
      var p := UnitBack(s, i, c.left);
      ResumeStop(s, m, p);
      var right := PipelineBack(s, m + 1, c.right);
      d := Pipe(Tree(p), right);
      PipeStep(s, i, m, j, Tree(p), right);
    } else {
      assert Print(c, 1) == Print(c, 0);
      var p := UnitBack(s, i, c);
      ResumeStop(s, j, p);
      d := Tree(p);
      PipeEnd(s, i, j, d);
    }
  }

  lemma {:induction false} AmpsBack(s: string, i: nat, c: Cmd<string>) returns (first: Result<Cmd<Span>>, d: Cmd<Span>)
    requires At(s, i, Print(c, 2)) && Proper(c) && Follows(s, i + |Print(c, 2)|, ")&;")
    ensures first == Pipeline(s, i) && first.Ok? && Spelled(s, d) == c
    ensures Amps(s, first.next, first.value) == Amps(s, i + |Print(c, 2)|, d)
    decreases c, Rank(c, 2)
  {
    hide GetToken, Peek, Skip, Pipeline, Words;
    var j := i + |Print(c, 2)|;
    if c.Back? {
      assert Print(c, 2) == Print(c.cmd, 2) + "&";
      AtSplit(s, i, Print(c.cmd, 2), "&");
      assert s[j - 1] == '&';
      var inner;
      first, inner := AmpsBack(s, i, c.cmd);
      CharToken(s, j - 1);
      SkipAmps(s, j, Back(inner));
      d := Back(inner);
    } else {
      assert Print(c, 2) == Print(c, 1);
      d := PipelineBack(s, i, c);
      first := Pipeline(s, i);
    }
  }

  lemma {:induction false} LineBack(s: string, i: nat, c: Cmd<string>) returns (d: Cmd<Span>)
    requires At(s, i, Print(c, 3)) && Proper(c) && Follows(s, i + |Print(c, 3)|, ")")
    ensures Line(s, i) == Ok(d, i + |Print(c, 3)|) && Spelled(s, d) == c
    decreases c, Rank(c, 3)
  {
    hide Line, Pipeline, Amps, Words;
    var j := i + |Print(c, 3)|;
    if c.List? {
      var m := i + |Print(c.left, 2)|;
      AtJoin(s, i, Print(c.left, 2), ';', Print(c.right, 3));
      var first, left := AmpsBack(s, i, c.left);
      var right := LineBack(s, m + 1, c.right);
      d := List(left, right);
      LineStep(s, i, m, j, left, right);
    } else {
      assert Print(c, 3) == Print(c, 2);
      var first;
      first, d := AmpsBack(s, i, c);
      LineEnd(s, i, j, d);
    }
  }

  // ---- too many arguments ----

  lemma {:induction false} WordsTake(argv: seq<string>, k: nat) returns (rest: string)
    requires k <= |argv|
    ensures Words(argv) == Words(argv[..k]) + rest && (k < |argv| ==> |rest| > 0 && rest[0] == ' ')
    decreases |argv|
  {
    if k == |argv| {
      rest := "";
      assert argv[..k] == argv;
    } else {
      var init, w := argv[..|argv| - 1], argv[|argv| - 1];
      var r := WordsTake(init, k);
      assert init[..k] == argv[..k];
      rest := r + " " + w;
      var taken := Words(argv[..k]);
      assert (taken + r) + " " + w == taken + rest;
    }
  }

  /** Where the tenth argument stands. */
  lemma TenthAt(s: string, i: nat, argv: seq<string>)
    requires At(s, i, Words(argv)) && |argv| >= MAXARGS && Ended(s, i + |Words(argv)|)
    ensures var nine, w := argv[..MAXARGS - 1], argv[MAXARGS - 1]; var m := i + |Words(nine)|;
      At(s, i, Words(nine)) && At(s, m, " " + w) && Ended(s, m) && Ended(s, m + 1 + |w|)
  {
    hide Words, WordChar;
    var nine, ten, w := argv[..MAXARGS - 1], argv[..MAXARGS], argv[MAXARGS - 1];
    var rest := WordsTake(argv, MAXARGS);
    AtSplit(s, i, Words(ten), rest);
    assert Ended(s, i + |Words(ten)|) by {
      SpaceEnds();
      if MAXARGS < |argv| {
        AtHead(s, i + |Words(ten)|, rest);
      } else {
        assert ten == argv;
      }
    }
    WordsLast(ten);
    assert ten[..|ten| - 1] == nine;
    AtSplit(s, i, Words(nine), " " + w);
    var m := i + |Words(nine)|;
    AtHead(s, m, " " + w);
    SpaceEnds();
  }

  lemma WordsLast(argv: seq<string>)
    requires argv != []
    ensures Words(argv) == Words(argv[..|argv| - 1]) + (" " + argv[|argv| - 1])
  {
  }

  lemma SpaceEnds()
    ensures !WordChar(' ')
  {
  }

  /** The tenth argument is refused. */
  lemma ExecFails(s: string, i: nat, argv: seq<string>)
    requires At(s, i, Words(argv)) && Worded(Exec(argv)) && |argv| >= MAXARGS && Follows(s, i + |Words(argv)|, "<>|)&;")
    ensures Unit(s, i) == Err(TooManyArgs)
  {
    hide Simple, GetToken, Skip, Words, At, Peek;
    var nine := argv[..MAXARGS - 1];
    TenthAt(s, i, argv);
    var spans := WordsBack(s, i, nine);
    ArgRefused(s, i + |Words(nine)|, argv[MAXARGS - 1], spans);
    FirstWord(s, i, nine);
  }

  lemma ArgRefused(s: string, m: nat, w: string, argv: seq<Span>)
    requires At(s, m, " " + w) && Word(w) && Ended(s, m + 1 + |w|) && |argv| + 1 >= MAXARGS
    ensures Simple(s, m, argv, []) == Err(TooManyArgs)
  {
    hide GetToken, Peek, Skip, Text, Wrap;
    ArgTokens(s, m, w);
    assert Redirs(s, m, []) == Ok([], m + 1);
  }

  lemma {:induction false} UnitFails(s: string, i: nat, c: Cmd<string>)
    requires At(s, i, Print(c, 0)) && Worded(c) && !Small(c) && Follows(s, i + |Print(c, 0)|, "<>|)&;")
    ensures Unit(s, i) == Err(TooManyArgs)
    decreases c, Rank(c, 0)
  {
    hide Unit, Words;
    if Level(c) > 0 {
      ParenFails(s, i, c);
    } else if c.Exec? {
      ExecFails(s, i, c.argv);
    } else {
      var m := i + |Print(c.cmd, 0)|;
      assert Print(c, 0) == Print(c.cmd, 0) + (OpText(c.op) + c.file);
      AtSplit(s, i, Print(c.cmd, 0), OpText(c.op) + c.file);
      assert s[m] == (OpText(c.op) + c.file)[0];
      UnitFails(s, i, c.cmd);
    }
  }

  lemma {:induction false} ParenFails(s: string, i: nat, c: Cmd<string>)
    requires At(s, i, Print(c, 0)) && Worded(c) && !Small(c) && Level(c) > 0
    ensures Unit(s, i) == Err(TooManyArgs)
    decreases c, 4, 0
  {
    hide Line, Unit, Words, Worded, Small;
    var m := i + 1 + |Print(c, 3)|;
    assert Print(c, 0) == "(" + (Print(c, 3) + ")");
    AtSplit(s, i, "(", Print(c, 3) + ")");
    AtSplit(s, i + 1, Print(c, 3), ")");
    AtHead(s, i, "(");
    AtHead(s, m, ")");
    LineFails(s, i + 1, c);
    BlockFails(s, i);
  }

  lemma BlockFails(s: string, i: nat)
    requires i < |s| && s[i] == '(' && Line(s, i + 1) == Err(TooManyArgs)
    ensures Unit(s, i) == Err(TooManyArgs)
  {
    hide GetToken, Peek, Skip, Line, Simple, Pipeline;
    CharToken(s, i);
    SkipWhole(s, i + 1);
  }

  lemma UnitFailsPipeline(s: string, i: nat)
    requires i <= |s| && Unit(s, i) == Err(TooManyArgs)
    ensures Pipeline(s, i) == Err(TooManyArgs)
  {
    hide Unit;
  }

  lemma PipeStepFails(s: string, i: nat, m: nat)
    requires i <= m < |s| && s[m] == '|' && Pipeline(s, m + 1) == Err(TooManyArgs)
    requires var left := Unit(s, i); left.Ok? && left.next == m
    ensures Pipeline(s, i) == Err(TooManyArgs)
  {
    hide GetToken, Peek, Skip, Unit;
    CharToken(s, m);
    SkipWhole(s, m + 1);
  }

  lemma {:induction false} PipelineFails(s: string, i: nat, c: Cmd<string>)
    requires At(s, i, Print(c, 1)) && Worded(c) && !Small(c) && Follows(s, i + |Print(c, 1)|, ")&;")
    ensures Pipeline(s, i) == Err(TooManyArgs)
    decreases c, Rank(c, 1)
  {
    hide GetToken, Peek, Skip, Unit, Tree, Words, Resume, Pipeline;
    if c.Pipe? {
      var m := i + |Print(c.left, 0)|;
      AtJoin(s, i, Print(c.left, 0), '|', Print(c.right, 1));
      if Small(c.left) {
        var p := UnitBack(s, i, c.left);
        ResumeStop(s, m, p);
        PipelineFails(s, m + 1, c.right);
        PipeStepFails(s, i, m);
      } else {
        UnitFails(s, i, c.left);
        UnitFailsPipeline(s, i);
      }
    } else {
      assert Print(c, 1) == Print(c, 0);
      UnitFails(s, i, c);
      UnitFailsPipeline(s, i);
    }
  }

  lemma {:induction false} AmpsFails(s: string, i: nat, c: Cmd<string>)
    requires At(s, i, Print(c, 2)) && Worded(c) && !Small(c) && Follows(s, i + |Print(c, 2)|, ")&;")
    ensures Pipeline(s, i) == Err(TooManyArgs)
    decreases c, Rank(c, 2)
  {
    hide Pipeline, Words;
    if c.Back? {
      assert Print(c, 2) == Print(c.cmd, 2) + "&";
      AtSplit(s, i, Print(c.cmd, 2), "&");
      AmpsFails(s, i, c.cmd);
    } else {
      assert Print(c, 2) == Print(c, 1);
      PipelineFails(s, i, c);
    }
  }

  lemma LineStepFails(s: string, i: nat, m: nat, left: Cmd<Span>)
    requires i <= m < |s| && s[m] == ';' && Line(s, m + 1) == Err(TooManyArgs)
    requires var first := Pipeline(s, i); first.Ok? && Amps(s, first.next, first.value) == Amps(s, m, left)
    ensures Line(s, i) == Err(TooManyArgs)
  {
    hide GetToken, Peek, Skip, Pipeline;
    CharToken(s, m);
    assert Amps(s, m, left) == Ok(left, m);
    SkipWhole(s, m + 1);
  }

  lemma {:induction false} LineFails(s: string, i: nat, c: Cmd<string>)
    requires At(s, i, Print(c, 3)) && Worded(c) && !Small(c) && Follows(s, i + |Print(c, 3)|, ")")
    ensures Line(s, i) == Err(TooManyArgs)
    decreases c, Rank(c, 3)
  {
    hide Pipeline, Amps, Words, Peek;
    if c.List? {
      var m := i + |Print(c.left, 2)|;
      AtJoin(s, i, Print(c.left, 2), ';', Print(c.right, 3));
      if Small(c.left) {
        var first, left := AmpsBack(s, i, c.left);
        LineFails(s, m + 1, c.right);
        LineStepFails(s, i, m, left);
      } else {
        AmpsFails(s, i, c.left);
      }
    } else {
      assert Print(c, 3) == Print(c, 2);
      AmpsFails(s, i, c);
    }
  }

  /** Parsing the printing of a tree gives the tree back if every command has at most
      nine arguments, and reports too many otherwise. */
  lemma RoundTrip(c: Cmd<string>)
    requires Worded(c)
    ensures Small(c) ==> Command(Print(c, 3)).Ok? && Spelled(Print(c, 3), Command(Print(c, 3)).value) == c
    ensures !Small(c) ==> Command(Print(c, 3)) == Err(TooManyArgs)
  {
    hide Print, Line, Spelled, Worded, Small;
    var s := Print(c, 3);
    if Small(c) {
      var d := LineBack(s, 0, c);
    } else {
      LineFails(s, 0, c);
    }
  }
}
