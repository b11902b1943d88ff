/** The regular expression matcher of user/grep.c. A C string is the sequence of its
    characters before the NUL; a pointer into the text is an offset, one into the
    pattern a suffix. */
module Grep {
  /** The items of a pattern: a character or dot, a starred one, and a final $. */
  datatype Item = One(c: char) | Star(c: char) | End

  function Items(re: string): seq<Item>
    decreases |re|
  {
    if re == [] then []
    else if |re| > 1 && re[1] == '*' then [Star(re[0])] + Items(re[2..])
    else if re == "$" then [End]
    else [One(re[0])] + Items(re[1..])
  }

  predicate Is(c: char, x: char) {
    c == '.' || c == x
  }

  /** text[a..b] is a word of the item's language; $ also needs the text to end. */
  predicate Piece(it: Item, text: string, a: nat, b: nat)
    requires a <= b <= |text|
  {
    match it
    case One(c) => b == a + 1 && Is(c, text[a])
    case Star(c) => forall k :: a <= k < b ==> Is(c, text[k])
    case End => a == b == |text|
  }

  /** cuts divides a substring of the text into one piece for each item. */
  ghost predicate Cut(items: seq<Item>, text: string, cuts: seq<nat>) {
    && |cuts| == |items| + 1 && cuts[|items|] <= |text|
    && forall k :: 0 <= k < |items| ==> CutAt(items, text, cuts, k)
  }

  ghost predicate CutAt(items: seq<Item>, text: string, cuts: seq<nat>, k: nat)
    requires k < |items| && |cuts| == |items| + 1
  {
    cuts[k] <= cuts[k + 1] <= |text| && Piece(items[k], text, cuts[k], cuts[k + 1])
  }

  /** Some substring of the text that starts at i is in the language of the items. */
  ghost predicate Found(items: seq<Item>, text: string, i: nat) {
    exists cuts :: Cut(items, text, cuts) && cuts[0] == i
  }

  /** What match decides: a substring in the language, at the start if the pattern
      begins with ^. */
  ghost predicate Matched(re: string, text: string) {
    if re != [] && re[0] == '^' then Found(Items(re[1..]), text, 0)
    else exists i: nat :: i <= |text| && Found(Items(re), text, i)
  }

  lemma FoundNil(text: string, i: nat)
    ensures Found([], text, i) <==> i <= |text|
  {
    if i <= |text| {
      assert Cut([], text, [i]);
    }
  }

  /** A substring splits into a piece for the first item and the rest. */
  lemma FoundCons(it: Item, rest: seq<Item>, text: string, i: nat)
    ensures Found([it] + rest, text, i) <==>
      exists j: nat :: i <= j <= |text| && Piece(it, text, i, j) && Found(rest, text, j)
  {
    var items := [it] + rest;
    if cuts :| Cut(items, text, cuts) && cuts[0] == i {
      assert CutAt(items, text, cuts, 0);
      var tail := cuts[1..];
      forall k | 0 <= k < |rest| ensures CutAt(rest, text, tail, k) {
        assert CutAt(items, text, cuts, k + 1);
      }
      assert Cut(rest, text, tail) && tail[0] == cuts[1];
    }
    if j: nat :| i <= j <= |text| && Piece(it, text, i, j) && Found(rest, text, j) {
      var tail :| Cut(rest, text, tail) && tail[0] == j;
      var cuts := [i] + tail;
      forall k | 0 <= k < |items| ensures CutAt(items, text, cuts, k) {
        if k > 0 {
          assert CutAt(rest, text, tail, k - 1);
        }
      }
      assert Cut(items, text, cuts);
    }
  }

  /** matchhere: the pattern matches at offset i. */
  method MatchHere(re: string, text: string, i: nat) returns (r: bool)
    requires i <= |text|
    ensures r <==> Found(Items(re), text, i)
    decreases |re| + |text| - i, 0
  {
    if re == [] {
      FoundNil(text, i);
      return true;
    }
    if |re| > 1 && re[1] == '*' {
      r := MatchStar(re[0], re[2..], text, i);
      return;
    }
    if re == "$" {
      FoundCons(End, [], text, i);
      FoundNil(text, i);
      assert [End] + [] == [End];
      return i == |text|;
    }
    FoundCons(One(re[0]), Items(re[1..]), text, i);
    if i < |text| && (re[0] == '.' || re[0] == text[i]) {
      r := MatchHere(re[1..], text, i + 1);
      return;
    }
    return false;
  }

  /** matchstar: zero or more c, then the pattern. */
  method MatchStar(c: char, re: string, text: string, i: nat) returns (r: bool)
    requires i <= |text|
    ensures r <==> Found([Star(c)] + Items(re), text, i)
    decreases |re| + |text| - i, 1
  {
    FoundCons(Star(c), Items(re), text, i);
    var j := i;
    while true
      invariant i <= j <= |text|
      invariant forall k :: i <= k < j ==> Is(c, text[k])
      invariant forall k :: i <= k < j ==> !Found(Items(re), text, k)
      decreases |text| - j
    {
      r := MatchHere(re, text, j);
      if r {
        assert Piece(Star(c), text, i, j);
        return;
      }
      if !(j < |text| && (text[j] == c || c == '.')) {
        break;
      }
      j := j + 1;
    }
  }

  /** match: search for the pattern anywhere in the text. */
  method Match(re: string, text: string) returns (r: bool)
    ensures r <==> Matched(re, text)
  {
    if re != [] && re[0] == '^' {
      r := MatchHere(re[1..], text, 0);
      return;
    }
    var i := 0;
    while true
      invariant 0 <= i <= |text|
      invariant forall k :: 0 <= k < i ==> !Found(Items(re), text, k)
      decreases |text| - i
    {
      r := MatchHere(re, text, i);
      if r || i == |text| {
        return;
      }
      i := i + 1;
    }
  }
}
