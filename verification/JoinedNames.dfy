/** Names joined with a plus sign, as a rewrite names the op that stands for several
    (pipeline/attention_fuse.py). */
module JoinedNames {

  const PLUS := "+"

  function Joined(names: seq<string>): string
    requires names != []
  {
    if |names| == 1 then names[0] else Joined(names[..|names| - 1]) + PLUS + names[|names| - 1]
  }

  function Longer(parts: seq<string>, c: char): (r: seq<string>)
    requires parts != []
    ensures r != []
  {
    if c == '+' then parts + [""] else parts[..|parts| - 1] + [parts[|parts| - 1] + [c]]
  }

  /** The parts between plus signs. */
  function Split(s: string): (r: seq<string>)
    ensures r != []
  {
    if s == "" then [""] else Longer(Split(s[..|s| - 1]), s[|s| - 1])
  }

  function Pieces(s: string): (r: set<string>)
    ensures r != {}
  {
    var r := set p | p in Split(s);
    assert Split(s)[0] in r;
    r
  }

  lemma LongerBehind(a: seq<string>, b: seq<string>, c: char)
    requires b != []
    ensures Longer(a + b, c) == a + Longer(b, c)
  {
    if c != '+' {
      assert (a + b)[..|a + b| - 1] == a + b[..|b| - 1];
    }
  }

  lemma SplitStep(s: string, c: char)
    ensures Split(s + [c]) == Longer(Split(s), c)
  {
    assert (s + [c])[..|s|] == s;
  }

  lemma {:induction false} SplitJoin(a: string, b: string)
    ensures Split(a + PLUS + b) == Split(a) + Split(b)
  {
    if b == "" {
      SplitStep(a, '+');
      assert a + PLUS + b == a + ['+'];
    } else {
      var init, c := b[..|b| - 1], b[|b| - 1];
      assert a + PLUS + b == (a + PLUS + init) + [c] && b == init + [c];
      hide Split, Longer;
      SplitJoin(a, init);
      SplitStep(a + PLUS + init, c);
      SplitStep(init, c);
      LongerBehind(Split(a), Split(init), c);
    }
  }

  ghost predicate PieceOf(names: seq<string>, p: string) {
    exists name :: name in names && p in Pieces(name)
  }

  lemma {:induction false} PiecesOfJoined(names: seq<string>, p: string)
    requires names != []
    ensures p in Pieces(Joined(names)) <==> PieceOf(names, p)
  {
    if |names| > 1 {
      var init, last := names[..|names| - 1], names[|names| - 1];
      assert names == init + [last];
      SplitJoin(Joined(init), last);
      PiecesOfJoined(init, p);
      assert PieceOf(names, p) <==> PieceOf(init, p) || p in Pieces(last);
    }
  }

  /** A name without a plus sign is its own piece. */
  lemma {:induction false} PlainPieces(s: string)
    requires '+' !in s
    ensures Split(s) == [s] && Pieces(s) == {s}
  {
    if s != "" {
      var init, c := s[..|s| - 1], s[|s| - 1];
      assert s == init + [c];
      assert c in s;
      PlainPieces(init);
    }
  }
}
