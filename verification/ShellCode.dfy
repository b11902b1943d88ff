/** The parser of user/sh.c: recursive descent over a cursor that the routines move,
    then the strings cut off in place. A panic is an Err. */
module ShellCode {
  import opened ShellGrammar

  class Parser {
    const s: string
    var ps: nat

    constructor (s: string)
      ensures this.s == s && ps == 0
    {
      this.s := s;
      ps := 0;
    }

    /** Move the cursor past white space; say whether one of toks comes next. */
    method AtOne(toks: string) returns (b: bool)
      requires ps <= |s|
      modifies this
      ensures ps == Skip(s, old(ps)) && b == Peek(s, old(ps), toks)
    {
      while ps < |s| && Space(s[ps])
        invariant old(ps) <= ps <= |s| && Skip(s, ps) == Skip(s, old(ps))
      {
        ps := ps + 1;
      }
      b := ps < |s| && s[ps] in toks;
    }

    /** gettoken. */
    method Next() returns (kind: char, q: nat, eq: nat)
      requires ps <= |s|
      modifies this
      ensures Token(kind, q, eq, ps) == GetToken(s, old(ps))
    {
      var skipped := AtOne("");
      q := ps;
      if ps == |s| {
        return '\0', q, q;
      }
      if s[ps] in "|();&<" {
        kind := s[ps];
        ps := ps + 1;
      } else if s[ps] == '>' {
        kind := '>';
        ps := ps + 1;
        if ps < |s| && s[ps] == '>' {
          kind := '+';
          ps := ps + 1;
        }
      } else {
        kind := 'a';
        while ps < |s| && WordChar(s[ps])
          invariant q <= ps <= |s| && WordEnd(s, ps) == WordEnd(s, q)
        {
          ps := ps + 1;
        }
      }
      eq := ps;
      skipped := AtOne("");
    }

    method ParseRedirs(before: seq<Redirection>) returns (r: Result<seq<Redirection>>)
      requires ps <= |s|
      modifies this
      ensures r == Redirs(s, old(ps), before) && ps <= |s| && (r.Ok? ==> ps == r.next)
    {
      var rs := before;
      SkipTokens(s, ps);
      SkipRedirs(s, ps, rs);
      SkipTwice(s, ps);
      var more := AtOne("<>");
      while more
        invariant old(ps) <= ps <= |s| && ps == Skip(s, ps) && more == Peek(s, ps, "<>")
        invariant Redirs(s, ps, rs) == Redirs(s, old(ps), before)
        decreases |s| - ps
      {
        ghost var start := ps;
        var tok, q, eq := Next();
        var kind;
        kind, q, eq := Next();
        if kind != 'a' {
          return Err(MissingFile);
        }
        rs := rs + [Redirection(OpOf(tok), Span(q, eq))];
        SkipTokens(s, ps);
        SkipRedirs(s, ps, rs);
        SkipTwice(s, ps);
        more := AtOne("<>");
      }
      r := Ok(rs, ps);
    }

    /** parseexec. */
    method ParseExec() returns (r: Result<Cmd<Span>>)
      requires ps <= |s|
      modifies this
      ensures r == Unit(s, old(ps)) && ps <= |s| && (r.Ok? ==> ps == r.next)
      decreases |s| - ps, 1
    {
      SkipTokens(s, ps);
      var paren := AtOne("(");
      if paren {
        r := ParseBlock();
      } else {
        r := ParseSimple();
      }
    }

    /** parseexec, once no parenthesis was seen. */
    method ParseSimple() returns (r: Result<Cmd<Span>>)
      requires ps <= |s|
      modifies this
      ensures r == Simple(s, old(ps), [], []) && ps <= |s| && (r.Ok? ==> ps == r.next)
    {
      hide Wrap, Redirs, GetToken, Skip, WordEnd, Peek;
      var argv: seq<Span> := [];
      var red := ParseRedirs([]);
      while red.Ok?
        invariant ps <= |s| && (red.Ok? ==> ps == red.next)
        invariant Simple(s, old(ps), [], []) == if red.Err? then Err(red.error) else Args(s, ps, argv, red.value)
        decreases red.Ok?, |s| - ps
      {
        var rs := red.value;
        SkipTokens(s, ps);
        var stop := AtOne("|)&;");
        if stop {
          return Ok(Wrap(Exec(argv), rs), ps);
        }
        var kind, q, eq := Next();
        if kind == '\0' {
          return Ok(Wrap(Exec(argv), rs), ps);
        }
        if kind != 'a' {
          return Err(Syntax);
        }
        if |argv| + 1 >= MAXARGS {
          return Err(TooManyArgs);
        }
        argv := argv + [Span(q, eq)];
        red := ParseRedirs(rs);
      }
      r := Err(red.error);
    }

    method ParseBlock() returns (r: Result<Cmd<Span>>)
      requires ps <= |s| && Peek(s, ps, "(")
      modifies this
      ensures r == Block(s, old(ps)) && ps <= |s| && (r.Ok? ==> ps == r.next)
      decreases |s| - ps, 0
    {
      var kind, q, eq := Next();
      r := ParseLine();
      if r.Err? {
        return;
      }
      SkipTokens(s, ps);
      var paren := AtOne(")");
      if !paren {
        return Err(MissingParen);
      }
      kind, q, eq := Next();
      var red := ParseRedirs([]);
      r := if red.Err? then Err(red.error) else Ok(Wrap(r.value, red.value), ps);
    }

    method ParsePipe() returns (r: Result<Cmd<Span>>)
      requires ps <= |s|
      modifies this
      ensures r == Pipeline(s, old(ps)) && ps <= |s| && (r.Ok? ==> ps == r.next)
      decreases |s| - ps, 2
    {
      r := ParseExec();
      if r.Err? {
        return;
      }
      SkipTokens(s, ps);
      var bar := AtOne("|");
      if bar {
        var kind, q, eq := Next();
        var right := ParsePipe();
        r := if right.Err? then right else Ok(Pipe(r.value, right.value), ps);
      } else {
        r := Ok(r.value, ps);
      }
    }

    method ParseLine() returns (r: Result<Cmd<Span>>)
      requires ps <= |s|
      modifies this
      ensures r == Line(s, old(ps)) && ps <= |s| && (r.Ok? ==> ps == r.next)
      decreases |s| - ps, 3
    {
      r := ParsePipe();
      if r.Err? {
        return;
      }
      var cmd := r.value;
      ghost var first := r;
      SkipTokens(s, ps);
      SkipAmps(s, ps, cmd);
      var amp := AtOne("&");
      while amp
        invariant first.next <= ps <= |s| && amp == Peek(s, ps, "&")
        invariant Amps(s, ps, cmd) == Amps(s, first.next, first.value)
        decreases |s| - ps
      {
        var kind, q, eq := Next();
        cmd := Back(cmd);
        SkipTokens(s, ps);
        SkipAmps(s, ps, cmd);
        amp := AtOne("&");
      }
      SkipTokens(s, ps);
      var semi := AtOne(";");
      if semi {
        var kind, q, eq := Next();
        var rest := ParseLine();
        r := if rest.Err? then rest else Ok(List(cmd, rest.value), ps);
      } else {
        r := Ok(cmd, ps);
      }
    }
  }

  /** The places just past the words of the tree. */
  ghost function Ends(c: Cmd<Span>): set<nat> {
    match c
    case Exec(argv) => set k | 0 <= k < |argv| :: argv[k].eq
    case Redir(d, _, file) => Ends(d) + {file.eq}
    case Pipe(l, r) => Ends(l) + Ends(r)
    case List(l, r) => Ends(l) + Ends(r)
    case Back(d) => Ends(d)
  }

  /** Read from its start, the word's C string in t is the word of s. */
  ghost predicate Reads(t: seq<char>, s: string, w: Span) {
    && w.q <= w.eq <= |s| && w.eq < |t| && t[w.eq] == '\0'
    && forall k :: w.q <= k < w.eq ==> t[k] == s[k] != '\0'
  }

  ghost predicate AllRead(t: seq<char>, s: string, c: Cmd<Span>) {
    match c
    case Exec(argv) => forall k :: 0 <= k < |argv| ==> Reads(t, s, argv[k])
    case Redir(d, _, file) => AllRead(t, s, d) && Reads(t, s, file)
    case Pipe(l, r) => AllRead(t, s, l) && AllRead(t, s, r)
    case List(l, r) => AllRead(t, s, l) && AllRead(t, s, r)
    case Back(d) => AllRead(t, s, d)
  }

  /** Place k holds NUL if it is one of ends, and the old text otherwise. */
  ghost predicate Cut(t: seq<char>, before: seq<char>, ends: set<nat>) {
    && |t| == |before|
    && forall k :: 0 <= k < |t| ==> t[k] == if k in ends then '\0' else before[k]
  }

  lemma {:induction false} EndsOutside(s: string, c: Cmd<Span>, k: nat)
    requires AllGood(s, c) && k in Ends(c)
    ensures k <= |s| && (k < |s| ==> !WordChar(s[k]))
    decreases c
  {
    match c
    case Exec(argv) =>
    case Redir(d, _, file) => if k != file.eq { EndsOutside(s, d, k); }
    case Pipe(l, r) => if k in Ends(l) { EndsOutside(s, l, k); } else { EndsOutside(s, r, k); }
    case List(l, r) => if k in Ends(l) { EndsOutside(s, l, k); } else { EndsOutside(s, r, k); }
    case Back(d) => EndsOutside(s, d, k);
  }

  /** Cutting at places that are on no word leaves every word readable. */
  lemma {:induction false} CutReads(t: seq<char>, s: string, c: Cmd<Span>, ends: set<nat>)
    requires AllGood(s, c) && Ends(c) <= ends && '\0' !in s && Cut(t, s + ['\0'], ends)
    requires forall k :: k in ends ==> k <= |s| && (k < |s| ==> !WordChar(s[k]))
    ensures AllRead(t, s, c)
    decreases c
  {
    match c
    case Exec(argv) =>
      forall k | 0 <= k < |argv| ensures Reads(t, s, argv[k]) {
        assert argv[k].eq in Ends(c);
      }
    case Redir(d, _, file) =>
      assert file.eq in Ends(c);
      CutReads(t, s, d, ends);
    case Pipe(l, r) =>
      CutReads(t, s, l, ends);
      CutReads(t, s, r, ends);
    case List(l, r) =>
      CutReads(t, s, l, ends);
      CutReads(t, s, r, ends);
    case Back(d) =>
      CutReads(t, s, d, ends);
  }

  lemma CutTwice(t: seq<char>, u: seq<char>, before: seq<char>, a: set<nat>, b: set<nat>)
    requires Cut(u, before, a) && Cut(t, u, b)
    ensures Cut(t, before, a + b)
  {
  }

  /** nulterminate: a NUL just past every word, and nothing else changed. */
  method NulTerminate(cmd: Cmd<Span>, buf: array<char>)
    requires forall k :: k in Ends(cmd) ==> k < buf.Length
    modifies buf
    ensures Cut(buf[..], old(buf[..]), Ends(cmd))
    decreases cmd
  {
    match cmd
    case Exec(argv) =>
      var i := 0;
      while i < |argv|
        invariant 0 <= i <= |argv|
        invariant Cut(buf[..], old(buf[..]), set k | 0 <= k < i :: argv[k].eq)
      {
        assert argv[i].eq in Ends(cmd);
        buf[argv[i].eq] := '\0';
        i := i + 1;
      }
    case Redir(d, _, file) =>
      assert Ends(d) <= Ends(cmd);
      NulTerminate(d, buf);
      assert file.eq in Ends(cmd);
      buf[file.eq] := '\0';
    case Pipe(l, r) =>
      assert Ends(l) <= Ends(cmd) && Ends(r) <= Ends(cmd);
      NulTerminate(l, buf);
      ghost var u := buf[..];
      NulTerminate(r, buf);
      CutTwice(buf[..], u, old(buf[..]), Ends(l), Ends(r));
    case List(l, r) =>
      assert Ends(l) <= Ends(cmd) && Ends(r) <= Ends(cmd);
      NulTerminate(l, buf);
      ghost var u := buf[..];
      NulTerminate(r, buf);
      CutTwice(buf[..], u, old(buf[..]), Ends(l), Ends(r));
    case Back(d) =>
      assert Ends(d) == Ends(cmd);
      NulTerminate(d, buf);
  }

  method StrLen(buf: array<char>) returns (n: nat)
    requires '\0' in buf[..]
    ensures n < buf.Length && buf[n] == '\0' && '\0' !in buf[..n]
  {
    n := 0;
    while buf[n] != '\0'
      invariant n < buf.Length && '\0' !in buf[..n] && '\0' in buf[n..]
      decreases buf.Length - n
    {
      n := n + 1;
    }
  }

  /** parsecmd on the NUL-terminated line in buf: the tree of the line's text, every
      word of which is afterwards a C string in the buffer; only places just past
      words have changed. */
  method ParseCmd(buf: array<char>) returns (r: Result<Cmd<Span>>, ghost n: nat)
    requires '\0' in buf[..]
    modifies buf
    ensures n < buf.Length && old(buf[n]) == '\0' && '\0' !in old(buf[..n]) && r == Command(old(buf[..n]))
    ensures r.Ok? ==> AllRead(buf[..n + 1], old(buf[..n]), r.value)
    ensures r.Ok? ==> Cut(buf[..], old(buf[..]), Ends(r.value))
    ensures r.Err? ==> buf[..] == old(buf[..])
  {
    var len := StrLen(buf);
    n := len;
    var s := buf[..len];
    var parser := new Parser(s);
    r := parser.ParseLine();
    if r.Err? {
      return;
    }
    var at := parser.AtOne("");
    if parser.ps != len {
      return Err(Syntax), n;
    }
    LineGood(s, 0);
    ghost var ends := Ends(r.value);
    forall k | k in ends ensures k <= |s| && (k < |s| ==> !WordChar(s[k])) {
      EndsOutside(s, r.value, k);
    }
    NulTerminate(r.value, buf);
    assert old(buf[..])[..len + 1] == s + ['\0'];
    CutReads(buf[..n + 1], s, r.value, ends);
    r := Ok(r.value, len);
  }
}
