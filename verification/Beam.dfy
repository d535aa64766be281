/** Beam search over kernel candidates (pipeline/generate_kernels.py).

    What the language model answers and what build, verification and measurement say are inputs, one
    answer and one trial per call. Everything the search keeps is a function of these. */
module Beam {
  import Ir

  // ---------------------------------------------------------------- normal forms

  predicate IsSpace(c: char) {
    c == ' ' || c == '\t' || c == '\n' || c == '\r' || ('\U{0B}' <= c <= '\U{0C}') || ('\U{1C}' <= c <= '\U{1F}') || c == '\U{85}' || c == '\U{A0}'
  }

  /** The words of a text, from the end: `word` is the one being read. */
  function WordsOf(s: string, word: string): seq<string>
    decreases |s|
  {
    if s == [] then if word == [] then [] else [word]
    else
      var c, rest := s[|s| - 1], s[..|s| - 1];
      if IsSpace(c) then WordsOf(rest, []) + (if word == [] then [] else [word])
      else WordsOf(rest, [c] + word)
  }

  function Joined(words: seq<string>): string {
    if words == [] then [] else if |words| == 1 then words[0] else Joined(words[..|words| - 1]) + " " + words[|words| - 1]
  }

  function Normalize(code: string): string { Joined(WordsOf(code, [])) }

  predicate IsWord(w: string) { w != [] && forall i :: 0 <= i < |w| ==> !IsSpace(w[i]) }

  predicate AllWords(ws: seq<string>) { forall i :: 0 <= i < |ws| ==> IsWord(ws[i]) }

  lemma {:induction false} WordsAreWords(s: string, word: string)
    requires word == [] || IsWord(word)
    ensures AllWords(WordsOf(s, word))
    decreases |s|
  {
    if s != [] {
      var c, rest := s[|s| - 1], s[..|s| - 1];
      if IsSpace(c) {
        WordsAreWords(rest, []);
      } else {
        WordsAreWords(rest, [c] + word);
      }
    }
  }

  lemma {:induction false} ReadsWord(s: string, w: string, word: string)
    requires forall i :: 0 <= i < |w| ==> !IsSpace(w[i])
    ensures WordsOf(s + w, word) == WordsOf(s, w + word)
    decreases |w|
  {
    if w == [] {
      assert s + w == s && w + word == word;
    } else {
      var c, init := w[|w| - 1], w[..|w| - 1];
      assert (s + w)[..|s + w| - 1] == s + init;
      assert (s + w)[|s + w| - 1] == c;
      ReadsWord(s, init, [c] + word);
      assert init + ([c] + word) == w + word;
    }
  }

  /** The words of a normal form are the words it was joined from. */
  lemma {:induction false} JoinedWords(ws: seq<string>)
    requires AllWords(ws)
    ensures WordsOf(Joined(ws), []) == ws
    decreases |ws|
  {
    if ws == [] {
    } else if |ws| == 1 {
      assert [] + ws[0] == ws[0] && ws[0] + [] == ws[0];
      ReadsWord([], ws[0], []);
    } else {
      var n := |ws| - 1;
      var init, last := Joined(ws[..n]), ws[n];
      JoinedWords(ws[..n]);
      ReadsWord(init + " ", last, []);
      assert last + [] == last;
      assert (init + " ")[..|init|] == init;
      assert Joined(ws) == (init + " ") + last;
    }
  }

  /** Two texts have one normal form exactly when they have the same words; normalising again changes
      nothing. */
  lemma NormalFormIsWords(a: string, b: string)
    ensures Normalize(a) == Normalize(b) <==> WordsOf(a, []) == WordsOf(b, [])
    ensures Normalize(Normalize(a)) == Normalize(a)
  {
    WordsAreWords(a, []);
    WordsAreWords(b, []);
    JoinedWords(WordsOf(a, []));
    JoinedWords(WordsOf(b, []));
  }

  // ---------------------------------------------------------------- what a number of calls amounts to

  /** What building and running a candidate gives: nothing, or whether the output was as expected, if
      that was looked at, and the cycles the op took, if any were reported. */
  datatype Trial = NotBuilt | Ran(golden: Ir.Option<bool>, cycles: Ir.Option<int>)

  datatype Result = Duplicate | BuildFail | VerifyFail | Ok(cycles: int)

  /** The outside world: the candidate the n-th call yields, its trial, and what verification on the host
      says of it; and whether expected outputs are there and the host verifies. */
  datatype World = World(candidate: nat -> string, trial: nat -> Trial, hostOk: nat -> bool, compares: bool, hostVerifies: bool)

  datatype Cand = Cand(code: string, cycles: int)

  function Seen(w: World, base: Cand, k: nat): set<string> {
    if k == 0 then {Normalize(base.code)} else Seen(w, base, k - 1) + {Normalize(w.candidate(k - 1))}
  }

  /** What becomes of call `k`. */
  function ResultAt(w: World, base: Cand, k: nat): Result {
    if Normalize(w.candidate(k)) in Seen(w, base, k) then Duplicate
    else
      match w.trial(k)
      case NotBuilt => BuildFail
      case Ran(golden, cycles) =>
        if w.compares && golden == Ir.Some(false) then VerifyFail
        else if w.hostVerifies && !w.hostOk(k) then VerifyFail
        else Ok(if cycles.Some? then cycles.value else 0)
  }

  function Viable(w: World, base: Cand, lo: nat, hi: nat): seq<Cand>
    requires lo <= hi
    decreases hi
  {
    if lo == hi then []
    else
      match ResultAt(w, base, hi - 1)
      case Ok(c) => Viable(w, base, lo, hi - 1) + [Cand(w.candidate(hi - 1), c)]
      case _ => Viable(w, base, lo, hi - 1)
  }

  /** The first of the cheapest, the baseline coming before all others. */
  function Best(base: Cand, cands: seq<Cand>): Cand {
    if cands == [] then base
    else
      var b, c := Best(base, cands[..|cands| - 1]), cands[|cands| - 1];
      if c.cycles < b.cycles then c else b
  }

  lemma {:induction false} SeenAll(w: World, base: Cand, j: nat, k: nat)
    requires j < k
    ensures Normalize(w.candidate(j)) in Seen(w, base, k) && Normalize(base.code) in Seen(w, base, k)
  {
    hide Normalize;
    if j < k - 1 {
      SeenAll(w, base, j, k - 1);
    } else {
      SeenBase(w, base, k - 1);
    }
  }

  lemma {:induction false} SeenBase(w: World, base: Cand, k: nat)
    ensures Normalize(base.code) in Seen(w, base, k)
  {
    hide Normalize;
    if k > 0 { SeenBase(w, base, k - 1); }
  }

  /** No two candidates that were built have one normal form, and none has the baseline's. */
  lemma NeverMeasuredTwice(w: World, base: Cand, j: nat, k: nat)
    requires j < k && !ResultAt(w, base, j).Duplicate? && !ResultAt(w, base, k).Duplicate?
    ensures Normalize(w.candidate(j)) != Normalize(w.candidate(k))
    ensures Normalize(w.candidate(k)) != Normalize(base.code)
  {
    SeenAll(w, base, j, k);
  }

  /** Nothing with the normal form of call `k` came before it. */
  ghost predicate IsNew(w: World, base: Cand, k: nat) {
    Normalize(w.candidate(k)) != Normalize(base.code) && forall j: nat :: j < k ==> Normalize(w.candidate(j)) != Normalize(w.candidate(k))
  }

  /** Call `k` gave `c`: it was built and run, its output was not found wrong, the host did not object, and
      it carries the cycles its op was reported to take, none reported counting as zero. */
  ghost predicate Passed(w: World, base: Cand, k: nat, c: Cand) {
    && IsNew(w, base, k) && w.trial(k).Ran? && c.code == w.candidate(k)
    && (w.compares ==> w.trial(k).golden != Ir.Some(false)) && (w.hostVerifies ==> w.hostOk(k))
    && (w.trial(k).cycles == Ir.Some(c.cycles) || (w.trial(k).cycles.None? && c.cycles == 0))
  }

  ghost predicate PassedIn(w: World, base: Cand, lo: nat, hi: nat, c: Cand) {
    exists k: nat :: lo <= k < hi && Passed(w, base, k, c)
  }

  lemma {:induction false} SeenIff(w: World, base: Cand, k: nat, key: string)
    ensures key in Seen(w, base, k) <==> key == Normalize(base.code) || exists j: nat :: j < k && key == Normalize(w.candidate(j))
  {
    hide Normalize;
    if k > 0 {
      SeenIff(w, base, k - 1, key);
      if key in Seen(w, base, k) && key !in Seen(w, base, k - 1) {
        assert key == Normalize(w.candidate(k - 1));
      }
    }
  }

  lemma OkIsPassed(w: World, base: Cand, k: nat, c: Cand)
    ensures Passed(w, base, k, c) <==> ResultAt(w, base, k) == Ok(c.cycles) && c.code == w.candidate(k)
  {
    SeenIff(w, base, k, Normalize(w.candidate(k)));
    hide Normalize, Seen;
  }

  /** The survivors are exactly the candidates that passed, with what they were measured at. */
  lemma {:induction false} SurvivorsPassed(w: World, base: Cand, lo: nat, hi: nat, c: Cand)
    requires lo <= hi
    ensures c in Viable(w, base, lo, hi) <==> PassedIn(w, base, lo, hi, c)
    decreases hi
  {
    if lo < hi {
      LastViable(w, base, lo, hi, c);
      hide *;
      SurvivorsPassed(w, base, lo, hi - 1, c);
      OkIsPassed(w, base, hi - 1, c);
      LastPassed(w, base, lo, hi, c);
    }
  }

  lemma LastViable(w: World, base: Cand, lo: nat, hi: nat, c: Cand)
    requires lo < hi
    ensures c in Viable(w, base, lo, hi) <==>
      c in Viable(w, base, lo, hi - 1) || (ResultAt(w, base, hi - 1) == Ok(c.cycles) && c.code == w.candidate(hi - 1))
  {
    hide ResultAt;
  }

  lemma LastPassed(w: World, base: Cand, lo: nat, hi: nat, c: Cand)
    requires lo < hi
    ensures PassedIn(w, base, lo, hi, c) <==> PassedIn(w, base, lo, hi - 1, c) || Passed(w, base, hi - 1, c)
  {
    hide Passed;
    if PassedIn(w, base, lo, hi - 1, c) {
      var k: nat :| lo <= k < hi - 1 && Passed(w, base, k, c);
      assert lo <= k < hi;
    }
    if Passed(w, base, hi - 1, c) {
      assert lo <= hi - 1 < hi;
    }
  }

  /** A candidate whose op reports no cycles counts as taking none: whatever the others took, it or one
      that is no dearer wins. */
  lemma UnreportedWins(w: World, base: Cand, calls: nat, k: nat)
    requires base.cycles > 0 && k < calls && IsNew(w, base, k) && w.trial(k).Ran? && w.trial(k).cycles.None?
    requires (w.compares ==> w.trial(k).golden != Ir.Some(false)) && (w.hostVerifies ==> w.hostOk(k))
    ensures Best(base, Viable(w, base, 0, calls)).cycles <= 0 && Best(base, Viable(w, base, 0, calls)) != base
  {
    var c := Cand(w.candidate(k), 0);
    hide Viable, Best, IsNew;
    assert Passed(w, base, k, c);
    SurvivorsPassed(w, base, 0, calls, c);
    BestIsMinimum(base, Viable(w, base, 0, calls));
  }

  /** The winner is the baseline or a surviving candidate, and nothing that survived is cheaper. */
  lemma {:induction false} BestIsMinimum(base: Cand, cands: seq<Cand>)
    ensures Best(base, cands) == base || Best(base, cands) in cands
    ensures Best(base, cands).cycles <= base.cycles
    ensures forall c :: c in cands ==> Best(base, cands).cycles <= c.cycles
  {
    if cands != [] {
      BestIsMinimum(base, cands[..|cands| - 1]);
      assert cands == cands[..|cands| - 1] + [cands[|cands| - 1]];
    }
  }

  lemma {:induction false} ViableSplits(w: World, base: Cand, lo: nat, mid: nat, hi: nat)
    requires lo <= mid <= hi
    ensures Viable(w, base, lo, hi) == Viable(w, base, lo, mid) + Viable(w, base, mid, hi)
  {
    hide ResultAt;
    if mid < hi {
      ViableSplits(w, base, lo, mid, hi - 1);
    }
  }

  // ---------------------------------------------------------------- ranking

  /** Behind all that are not dearer: a stable sort. */
  function Insert(s: seq<Cand>, c: Cand): seq<Cand> {
    if s == [] || s[|s| - 1].cycles <= c.cycles then s + [c]
    else Insert(s[..|s| - 1], c) + [s[|s| - 1]]
  }

  function Ranked(s: seq<Cand>): seq<Cand> {
    if s == [] then [] else Insert(Ranked(s[..|s| - 1]), s[|s| - 1])
  }

  ghost predicate Ascending(s: seq<Cand>) {
    forall i, j :: 0 <= i < j < |s| ==> s[i].cycles <= s[j].cycles
  }

  lemma {:induction false} InsertHolds(s: seq<Cand>, c: Cand)
    ensures multiset(Insert(s, c)) == multiset(s) + multiset{c}
  {
    if s != [] && s[|s| - 1].cycles > c.cycles {
      var init, last := s[..|s| - 1], s[|s| - 1];
      InsertHolds(init, c);
      assert s == init + [last];
    }
  }

  lemma {:induction false} InsertRanks(s: seq<Cand>, c: Cand)
    requires Ascending(s)
    ensures Ascending(Insert(s, c))
  {
    if s != [] && s[|s| - 1].cycles > c.cycles {
      var init, last := s[..|s| - 1], s[|s| - 1];
      InsertRanks(init, c);
      InsertHolds(init, c);
      assert s == init + [last];
      forall x | x in Insert(init, c)
        ensures x.cycles <= last.cycles
      {
        assert multiset(Insert(init, c))[x] > 0;
        if x != c {
          var i :| 0 <= i < |init| && init[i] == x;
          assert s[i] == x;
        }
      }
      hide Insert;
      LastAscends(Insert(init, c), last);
    }
  }

  lemma LastAscends(s: seq<Cand>, last: Cand)
    requires Ascending(s) && forall x :: x in s ==> x.cycles <= last.cycles
    ensures Ascending(s + [last])
  {
    assert forall i :: 0 <= i < |s| ==> s[i] in s;
  }

  lemma {:induction false} RankedIsSorted(s: seq<Cand>)
    ensures Ascending(Ranked(s)) && multiset(Ranked(s)) == multiset(s) && |Ranked(s)| == |s|
  {
    if s != [] {
      RankedIsSorted(s[..|s| - 1]);
      InsertRanks(Ranked(s[..|s| - 1]), s[|s| - 1]);
      InsertHolds(Ranked(s[..|s| - 1]), s[|s| - 1]);
      assert s == s[..|s| - 1] + [s[|s| - 1]];
    }
    assert |multiset(Ranked(s))| == |Ranked(s)| && |multiset(s)| == |s|;
  }

  function Take(s: seq<Cand>, beam: nat): seq<Cand> { if |s| <= beam then s else s[..beam] }

  /** The next beam is as many of the cheapest candidates as fit. */
  lemma TakesTheBest(s: seq<Cand>, beam: nat) returns (rest: seq<Cand>)
    ensures var best := Take(Ranked(s), beam);
      && |best| == (if |s| <= beam then |s| else beam) && multiset(best) + multiset(rest) == multiset(s)
      && forall x, y :: x in best && y in rest ==> x.cycles <= y.cycles
  {
    var r := Ranked(s);
    RankedIsSorted(s);
    var n := |Take(r, beam)|;
    rest := r[n..];
    assert r == r[..n] + rest && Take(r, beam) == r[..n];
    hide Ranked;
    forall x, y | x in r[..n] && y in rest
      ensures x.cycles <= y.cycles
    {
      var i :| 0 <= i < n && r[i] == x;
      var j :| n <= j < |r| && r[j] == y;
    }
  }

  // ---------------------------------------------------------------- the search

  datatype Record = Record(iter: nat, parentIdx: nat, exp: nat, parentCycles: int, result: Result)

  /** One record per call, telling what became of it and whose offspring it was. */
  ghost predicate Recorded(w: World, base: Cand, beams: seq<seq<Cand>>, history: seq<Record>) {
    forall k: nat :: k < |history| ==>
      var h := history[k];
      && h.result == ResultAt(w, base, k)
      && 1 <= h.iter <= |beams| && h.parentIdx < |beams[h.iter - 1]| && h.parentCycles == beams[h.iter - 1][h.parentIdx].cycles
  }

  /** Where each iteration starts in the history, and what it started from. */
  ghost predicate Generations(w: World, base: Cand, beam: nat, beams: seq<seq<Cand>>, starts: seq<nat>, history: seq<Record>) {
    && |beams| == |starts| >= 1 && beams[0] == [base] && starts[0] == 0
    && (forall g: nat :: g < |starts| ==> starts[g] <= |history|)
    && (forall g: nat, k: nat :: g < |starts| && k < |history| ==> (k >= starts[g] <==> history[k].iter >= g + 1))
    && (forall g: nat :: 0 < g < |beams| ==> starts[g - 1] <= starts[g] && beams[g] == Take(Ranked(Viable(w, base, starts[g - 1], starts[g])), beam))
  }

  /** A later iteration is entered only while nothing has beaten the baseline. */
  ghost predicate NothingBeaten(w: World, base: Cand, k: nat) {
    forall c :: c in Viable(w, base, 0, k) ==> c.cycles >= base.cycles
  }

  /** What the search carries from call to call. */
  datatype Found = Found(best: Cand, seen: set<string>, viable: seq<Cand>, proposals: seq<Cand>)

  /** What it should carry after `k` calls of which the last iteration made those from `start`. */
  function FoundAfter(w: World, base: Cand, start: nat, k: nat): Found
    requires start <= k
  {
    Found(Best(base, Viable(w, base, 0, k)), Seen(w, base, k), Viable(w, base, 0, k), Viable(w, base, start, k))
  }

  /** What one more call adds. */
  lemma FoundNext(w: World, base: Cand, start: nat, k: nat)
    requires start <= k
    ensures var f, r := FoundAfter(w, base, start, k).(seen := Seen(w, base, k) + {Normalize(w.candidate(k))}), ResultAt(w, base, k);
      FoundAfter(w, base, start, k + 1) ==
        if r.Ok? then
          var c := Cand(w.candidate(k), r.cycles);
          f.(proposals := f.proposals + [c], viable := f.viable + [c], best := if c.cycles < f.best.cycles then c else f.best)
        else f
  {
    var r := ResultAt(w, base, k);
    if r.Ok? { BestOneMore(base, Viable(w, base, 0, k), Cand(w.candidate(k), r.cycles)); }
    hide Normalize, ResultAt, Best;
  }

  method OneCall(w: World, base: Cand, ghost start: nat, k: nat, f: Found) returns (r: Result, g: Found)
    requires start <= k && f == FoundAfter(w, base, start, k)
    ensures r == ResultAt(w, base, k) && g == FoundAfter(w, base, start, k + 1)
  {
    FoundNext(w, base, start, k);
    var candidate := w.candidate(k);
    var key := Normalize(candidate);
    hide Normalize, Seen, Viable, Best;
    g := f.(seen := f.seen + {key});
    if key in f.seen { return Duplicate, g; }
    var trial := w.trial(k);
    if trial.NotBuilt? { return BuildFail, g; }
    if w.compares && trial.golden == Ir.Some(false) { return VerifyFail, g; }
    if w.hostVerifies && !w.hostOk(k) { return VerifyFail, g; }
    var cycles := if trial.cycles.Some? then trial.cycles.value else 0;
    var c := Cand(candidate, cycles);
    r := Ok(cycles);
    g := g.(proposals := f.proposals + [c], viable := f.viable + [c], best := if cycles < f.best.cycles then c else f.best);
  }

  lemma BestOneMore(base: Cand, cands: seq<Cand>, c: Cand)
    ensures Best(base, cands + [c]) == if c.cycles < Best(base, cands).cycles then c else Best(base, cands)
  {
    assert (cands + [c])[..|cands|] == cands;
  }

  lemma RecordOneMore(w: World, base: Cand, beams: seq<seq<Cand>>, history: seq<Record>, h: Record)
    requires Recorded(w, base, beams, history) && h.result == ResultAt(w, base, |history|)
    requires h.iter == |beams| >= 1 && h.parentIdx < |beams[h.iter - 1]| && h.parentCycles == beams[h.iter - 1][h.parentIdx].cycles
    ensures Recorded(w, base, beams, history + [h])
  {
    hide ResultAt;
  }

  lemma GenerationOneMore(w: World, base: Cand, beam: nat, beams: seq<seq<Cand>>, starts: seq<nat>, history: seq<Record>, h: Record)
    requires Generations(w, base, beam, beams, starts, history) && h.iter == |beams|
    ensures Generations(w, base, beam, beams, starts, history + [h])
  {
    hide Ranked, Viable;
  }

  /** Entering the next iteration. */
  lemma NextGeneration(w: World, base: Cand, beam: nat, beams: seq<seq<Cand>>, starts: seq<nat>, history: seq<Record>, next: seq<Cand>)
    requires Generations(w, base, beam, beams, starts, history) && Recorded(w, base, beams, history)
    requires next == Take(Ranked(Viable(w, base, starts[|starts| - 1], |history|)), beam)
    ensures Generations(w, base, beam, beams + [next], starts + [|history|], history) && Recorded(w, base, beams + [next], history)
  {
    hide Ranked, Viable, ResultAt;
    var b2, s2 := beams + [next], starts + [|history|];
    forall g: nat, k: nat | g < |s2| && k < |history|
      ensures k >= s2[g] <==> history[k].iter >= g + 1
    {
      if g < |starts| {
        assert s2[g] == starts[g];
      } else {
        assert history[k].iter <= |beams|;
      }
    }
    forall g: nat | 0 < g < |b2|
      ensures s2[g - 1] <= s2[g] && b2[g] == Take(Ranked(Viable(w, base, s2[g - 1], s2[g])), beam)
    {
      if g < |beams| {
        assert b2[g] == beams[g] && s2[g] == starts[g] && s2[g - 1] == starts[g - 1];
      }
    }
  }

  // ---------------------------------------------------------------- ranking the survivors

  ghost predicate DistinctForms(s: seq<Cand>) {
    forall i, j :: 0 <= i < j < |s| ==> Normalize(s[i].code) != Normalize(s[j].code)
  }

  lemma {:induction false} ViableForms(w: World, base: Cand, k: nat)
    ensures DistinctForms(Viable(w, base, 0, k))
    ensures forall c :: c in Viable(w, base, 0, k) ==> Normalize(c.code) in Seen(w, base, k)
  {
    hide Normalize;
    if k > 0 {
      ViableForms(w, base, k - 1);
    }
  }

  lemma {:induction false} InsertForms(s: seq<Cand>, c: Cand)
    requires DistinctForms(s) && forall x :: x in s ==> Normalize(x.code) != Normalize(c.code)
    ensures DistinctForms(Insert(s, c)) && forall x :: x in Insert(s, c) <==> x in s || x == c
  {
    hide Normalize;
    if s != [] && s[|s| - 1].cycles > c.cycles {
      var init, last := s[..|s| - 1], s[|s| - 1];
      assert s == init + [last];
      InsertForms(init, c);
      forall x | x in Insert(init, c)
        ensures Normalize(x.code) != Normalize(last.code)
      {
        if x in init {
          var i :| 0 <= i < |init| && init[i] == x;
          assert s[i] == x;
        } else {
          assert last in s;
        }
      }
    }
  }

  lemma {:induction false} RankedForms(s: seq<Cand>)
    requires DistinctForms(s)
    ensures DistinctForms(Ranked(s)) && forall x :: x in Ranked(s) <==> x in s
  {
    hide Normalize;
    if s != [] {
      var init, last := s[..|s| - 1], s[|s| - 1];
      assert s == init + [last];
      RankedForms(init);
      forall x | x in init
        ensures Normalize(x.code) != Normalize(last.code)
      {
        var i :| 0 <= i < |init| && init[i] == x;
        assert s[i] == x;
      }
      InsertForms(Ranked(init), last);
    }
  }

  method Distinct(s: seq<Cand>) returns (r: seq<Cand>)
    ensures DistinctForms(s) ==> r == s
  {
    r := [];
    var seenNorm: set<string> := {};
    for i := 0 to |s|
      invariant DistinctForms(s) ==> r == s[..i]
      invariant forall key :: key in seenNorm ==> exists j :: 0 <= j < i && key == Normalize(s[j].code)
    {
      var key := Normalize(s[i].code);
      if key !in seenNorm {
        seenNorm := seenNorm + {key};
        r := r + [s[i]];
      }
    }
  }

  // ---------------------------------------------------------------- the bound on calls

  function Bound(beam: nat, expansions: nat, iterations: nat): nat {
    if iterations == 0 then 0 else expansions * (1 + beam * (iterations - 1))
  }

  lemma BoundGrows(beam: nat, expansions: nat, it: nat, parents: nat)
    requires it >= 1 && parents <= (if it == 1 then 1 else beam)
    ensures Bound(beam, expansions, it - 1) + expansions * parents <= Bound(beam, expansions, it)
  {
    if it == 1 {
      Monotone(expansions, parents, 1);
    } else {
      Monotone(expansions, parents, beam);
      assert expansions * (1 + beam * (it - 1)) == expansions * (1 + beam * (it - 2)) + expansions * beam by {
        assert beam * (it - 1) == beam * (it - 2) + beam;
        Spread(expansions, 1 + beam * (it - 2), beam);
      }
    }
  }

  lemma Monotone(a: nat, b: nat, c: nat)
    requires b <= c
    ensures a * b <= a * c
  {
  }

  lemma Spread(a: nat, b: nat, c: nat)
    ensures a * (b + c) == a * b + a * c
  {
  }

  lemma BoundMonotone(beam: nat, expansions: nat, a: nat, b: nat)
    requires a <= b
    ensures Bound(beam, expansions, a) <= Bound(beam, expansions, b)
    decreases b - a
  {
    if a < b {
      BoundGrows(beam, expansions, b, 0);
      BoundMonotone(beam, expansions, a, b - 1);
    }
  }

  lemma TakeIsShort(s: seq<Cand>, beam: nat)
    ensures |Take(s, beam)| <= beam && (s != [] && beam > 0 ==> Take(s, beam) != [] && Take(s, beam)[0] == s[0])
  {
  }

  /** The cheapest of an iteration cannot beat the best so far, so the test that ends the search early
      says no more than that something has beaten the baseline. */
  lemma StopMeansBeaten(w: World, base: Cand, start: nat, k: nat, beam: nat)
    requires start <= k && beam >= 1 && Viable(w, base, start, k) != []
    ensures var next := Take(Ranked(Viable(w, base, start, k)), beam); var best := Best(base, Viable(w, base, 0, k));
      next != [] && next[0].cycles >= best.cycles && (best.cycles >= base.cycles <==> NothingBeaten(w, base, k))
  {
    var found, all := Viable(w, base, start, k), Viable(w, base, 0, k);
    RankedIsSorted(found);
    BestIsMinimum(base, all);
    ViableSplits(w, base, 0, start, k);
    var next := Take(Ranked(found), beam);
    TakeIsShort(Ranked(found), beam);
    assert next[0] in multiset(Ranked(found));
    assert next[0] in all;
  }

  /** One iteration: every member of the beam is expanded. */
  method Iterate(w: World, base: Cand, ghost beam: nat, expansions: nat, it: nat, beamSet: seq<Cand>, ghost beams: seq<seq<Cand>>, ghost starts: seq<nat>,
                 history0: seq<Record>, calls0: nat, found0: Found)
    returns (history: seq<Record>, calls: nat, found: Found)
    requires |history0| == calls0 && it == |beams| >= 1 && beamSet == beams[it - 1]
    requires Recorded(w, base, beams, history0) && Generations(w, base, beam, beams, starts, history0)
    requires found0 == FoundAfter(w, base, calls0, calls0)
    ensures |history| == calls == calls0 + expansions * |beamSet|
    ensures Recorded(w, base, beams, history) && Generations(w, base, beam, beams, starts, history)
    ensures found == FoundAfter(w, base, calls0, calls)
  {
    hide ResultAt, FoundAfter, Generations, Recorded;
    history, calls, found := history0, calls0, found0;
    var parentIdx := 0;
    while parentIdx < |beamSet|
      invariant 0 <= parentIdx <= |beamSet| && calls0 <= calls == |history|
      invariant found == FoundAfter(w, base, calls0, calls)
      invariant Recorded(w, base, beams, history) && Generations(w, base, beam, beams, starts, history)
      invariant calls == calls0 + expansions * parentIdx
    {
      var parent := beamSet[parentIdx];
      for exp := 0 to expansions
        invariant calls0 <= calls == |history|
        invariant found == FoundAfter(w, base, calls0, calls)
        invariant Recorded(w, base, beams, history) && Generations(w, base, beam, beams, starts, history)
        invariant calls == calls0 + expansions * parentIdx + exp
      {
        var result: Result;
        result, found := OneCall(w, base, calls0, calls, found);
        var h := Record(it, parentIdx, exp + 1, parent.cycles, result);
        RecordOneMore(w, base, beams, history, h);
        GenerationOneMore(w, base, beam, beams, starts, history, h);
        history := history + [h];
        calls := calls + 1;
      }
      Spread(expansions, parentIdx, 1);
      parentIdx := parentIdx + 1;
    }
  }

  lemma FreshIteration(w: World, base: Cand, lo: nat, k: nat, f: Found)
    requires lo <= k && f == FoundAfter(w, base, lo, k)
    ensures f.(proposals := []) == FoundAfter(w, base, k, k)
    ensures f.proposals == Viable(w, base, lo, k) && f.best == Best(base, Viable(w, base, 0, k)) && f.viable == Viable(w, base, 0, k)
  {
  }

  /** Searches until the iterations are used up, an iteration leaves no survivor, or something has
      beaten the baseline. */
  method BeamSearch(w: World, base: Cand, beam: nat, expansions: nat, iterations: nat)
    returns (best: Cand, history: seq<Record>, viable: seq<Cand>, calls: nat, ghost beams: seq<seq<Cand>>, ghost starts: seq<nat>)
    requires beam >= 1 && base.cycles > 0
    ensures |history| == calls <= Bound(beam, expansions, iterations)
    ensures best == Best(base, Viable(w, base, 0, calls)) && viable == Ranked(Viable(w, base, 0, calls))
    ensures best == base || PassedIn(w, base, 0, calls, best)
    ensures forall c :: c in viable <==> PassedIn(w, base, 0, calls, c)
    ensures Recorded(w, base, beams, history) && Generations(w, base, beam, beams, starts, history)
    ensures forall g: nat :: 0 < g < |starts| ==> NothingBeaten(w, base, starts[g])
    ensures iterations > 0 ==> |starts| <= iterations
    ensures iterations > 0 ==> |starts| == iterations || Viable(w, base, starts[|starts| - 1], calls) == [] || !NothingBeaten(w, base, calls)
  {
    hide *;
    history, calls := [], 0;
    beams, starts := [[base]], [0];
    NothingYet(w, base, beam);
    var beamSet := [base];
    var found := Found(base, {Normalize(base.code)}, [], []);
    var it := 1;
    var going := true;
    ghost var start: nat := 0;
    while it <= iterations && going
      invariant 1 <= it <= iterations + 1 && |history| == calls && start <= calls
      invariant Recorded(w, base, beams, history) && Generations(w, base, beam, beams, starts, history)
      invariant forall g: nat :: 0 < g < |starts| ==> NothingBeaten(w, base, starts[g])
      invariant found == FoundAfter(w, base, start, calls)
      invariant calls <= Bound(beam, expansions, it - 1)
      invariant |beams| == |starts| == if it == 1 then 1 else it - 1
      invariant start == starts[|starts| - 1]
      invariant it == 1 ==> calls == 0 && beamSet == beams[0] && |beamSet| == 1 && going
      invariant it > 1 && going ==> beamSet == Take(Ranked(Viable(w, base, start, calls)), beam) && NothingBeaten(w, base, calls)
      invariant !going ==> it > 1 && (Viable(w, base, start, calls) == [] || !NothingBeaten(w, base, calls))
      decreases iterations + 1 - it, going
    {
      FreshIteration(w, base, start, calls, found);
      if it > 1 {
        NextGeneration(w, base, beam, beams, starts, history, beamSet);
        beams, starts := beams + [beamSet], starts + [calls];
        TakeIsShort(Ranked(Viable(w, base, start, calls)), beam);
      }
      start := calls;
      found := found.(proposals := []);
      ghost var before := calls;
      history, calls, found := Iterate(w, base, beam, expansions, it, beamSet, beams, starts, history, calls, found);
      BoundGrows(beam, expansions, it, |beamSet|);
      FreshIteration(w, base, start, calls, found);
      if found.proposals == [] {
        going := false;
      } else {
        StopMeansBeaten(w, base, start, calls, beam);
        beamSet := Take(Ranked(found.proposals), beam);
        if beamSet[0].cycles >= found.best.cycles && found.best.cycles < base.cycles {
          going := false;
        }
      }
      it := it + 1;
    }
    BoundMonotone(beam, expansions, it - 1, iterations);
    FreshIteration(w, base, start, calls, found);
    best := found.best;
    ViableForms(w, base, calls);
    RankedForms(found.viable);
    viable := Distinct(Ranked(found.viable));
    forall c
      ensures c in viable <==> PassedIn(w, base, 0, calls, c)
    {
      SurvivorsPassed(w, base, 0, calls, c);
      RankedHas(found.viable, c);
    }
    BestIsMinimum(base, found.viable);
    RankedHas(found.viable, best);
  }

  lemma RankedHas(s: seq<Cand>, c: Cand)
    ensures c in Ranked(s) <==> c in s
  {
    RankedIsSorted(s);
    assert c in multiset(Ranked(s)) <==> c in multiset(s);
  }

  lemma NothingYet(w: World, base: Cand, beam: nat)
    ensures Recorded(w, base, [[base]], []) && Generations(w, base, beam, [[base]], [0], [])
    ensures Found(base, {Normalize(base.code)}, [], []) == FoundAfter(w, base, 0, 0)
  {
  }
}
