/** The choice of a group from the moduli file: choose_dh of dh.c. */
module ChooseDh {

  /** A line as parse_prime leaves it; its sizes are at least two. */
  datatype Line = Junk | Group(size: nat, g: nat, p: nat)

  predicate Parsed(lines: seq<Line>) { forall i: nat :: i < |lines| ==> lines[i].Group? ==> lines[i].size >= 2 }

  datatype Bounds = Bounds(min: int, want: int, max: int)

  predicate Candidate(b: Bounds, l: Line) { l.Group? && b.min <= l.size <= b.max }

  // ---- what there is to choose from ----

  function CountOf(b: Bounds, lines: seq<Line>, size: int): (r: nat) {
    if lines == [] then 0
    else
      var n := |lines| - 1;
      CountOf(b, lines[..n], size) + if Candidate(b, lines[n]) && lines[n].size == size then 1 else 0
  }

  /** The size of the first candidate that is large enough; zero if there is none. */
  function FirstEnough(b: Bounds, lines: seq<Line>): (r: nat) {
    if lines == [] then 0
    else
      var n := |lines| - 1;
      var f := FirstEnough(b, lines[..n]);
      if f == 0 && Candidate(b, lines[n]) && lines[n].size >= b.want then lines[n].size else f
  }

  predicate AnyCandidate(b: Bounds, lines: seq<Line>) { exists i: nat :: i < |lines| && Candidate(b, lines[i]) }

  /** `best` is what choose_dh is to settle on. */
  predicate Best(b: Bounds, lines: seq<Line>, best: nat) {
    var f := FirstEnough(b, lines);
    if f == 0 then
      best < b.want && forall i: nat :: i < |lines| && Candidate(b, lines[i]) ==> lines[i].size <= best
    else if f == b.want then best == b.want
    else best > b.want && forall i: nat :: i < |lines| && Candidate(b, lines[i]) && lines[i].size > b.want ==> lines[i].size >= best
  }

  // ---- the first pass ----

  datatype Tally = Tally(best: nat, count: nat)

  function Step(b: Bounds, t: Tally, l: Line): (r: Tally) {
    if !Candidate(b, l) then t
    else
      var s := l.size;
      var u := if (s > b.want && s < t.best) || (s > t.best && t.best < b.want) then Tally(s, 0) else t;
      if s == u.best then Tally(u.best, u.count + 1) else u
  }

  function Scan(b: Bounds, lines: seq<Line>): (r: Tally) {
    if lines == [] then Tally(0, 0)
    else
      var n := |lines| - 1;
      Step(b, Scan(b, lines[..n]), lines[n])
  }

  /** A size nothing on the list has is not counted. */
  lemma {:induction false} CountNone(b: Bounds, lines: seq<Line>, size: int)
    requires forall i: nat :: i < |lines| && Candidate(b, lines[i]) ==> lines[i].size != size
    ensures CountOf(b, lines, size) == 0
  {
    if lines != [] {
      var n := |lines| - 1;
      forall i: nat | i < n && Candidate(b, lines[..n][i])
        ensures lines[..n][i].size != size
      {
        assert lines[..n][i] == lines[i];
      }
      CountNone(b, lines[..n], size);
    }
  }

  /** What is known of the tally of the lines so far. */
  predicate Knows(b: Bounds, lines: seq<Line>, t: Tally) {
    && Best(b, lines, t.best) && t.count == CountOf(b, lines, t.best)
    && (if AnyCandidate(b, lines) then t.count > 0 && t.best > 0 else t.best == 0)
  }

  lemma {:induction false} Restrict(b: Bounds, h: seq<Line>, l: Line, lines: seq<Line>)
    requires lines == h + [l]
    ensures |lines| == |h| + 1 && lines[|h|] == l && lines[..|h|] == h
    ensures forall i: nat :: i < |h| ==> lines[i] == h[i]
    ensures AnyCandidate(b, lines) <==> AnyCandidate(b, h) || Candidate(b, l)
  {
    if AnyCandidate(b, h) {
      var i: nat :| i < |h| && Candidate(b, h[i]);
      assert Candidate(b, lines[i]);
    }
    if Candidate(b, l) {
      assert Candidate(b, lines[|h|]);
    }
  }

  lemma {:induction false} StepKnows(b: Bounds, h: seq<Line>, l: Line, lines: seq<Line>, t: Tally)
    requires b.want > 0 && lines == h + [l] && Knows(b, h, t) && (l.Group? ==> l.size >= 2)
    ensures Knows(b, lines, Step(b, t, l))
  {
    Restrict(b, h, l, lines);
    if Candidate(b, l) {
      var s := l.size;
      if (s > b.want && s < t.best) || (s > t.best && t.best < b.want) {
        CountNone(b, h, s);
      }
    }
  }

  /** The first pass finds the size to settle on and counts exactly the candidates that have it. */
  lemma {:induction false} ScanKnows(b: Bounds, lines: seq<Line>)
    requires b.want > 0 && Parsed(lines)
    ensures Knows(b, lines, Scan(b, lines))
  {
    if lines == [] {
      assert !AnyCandidate(b, lines);
    } else {
      var n := |lines| - 1;
      assert Parsed(lines[..n]) by {
        assert forall i: nat :: i < n ==> lines[..n][i] == lines[i];
      }
      ScanKnows(b, lines[..n]);
      assert lines == lines[..n] + [lines[n]];
      StepKnows(b, lines[..n], lines[n], lines, Scan(b, lines[..n]));
    }
  }

  /** Without a positive wish nothing is ever chosen. */
  lemma {:induction false} NothingWanted(b: Bounds, lines: seq<Line>)
    requires b.want <= 0 && Parsed(lines)
    ensures Scan(b, lines) == Tally(0, 0)
  {
    if lines != [] {
      var n := |lines| - 1;
      assert Parsed(lines[..n]) by {
        assert forall i: nat :: i < n ==> lines[..n][i] == lines[i];
      }
      NothingWanted(b, lines[..n]);
    }
  }

  lemma {:induction false} FirstEnoughFinds(b: Bounds, lines: seq<Line>, i: nat)
    requires b.want > 0 && Parsed(lines) && i < |lines| && Candidate(b, lines[i]) && lines[i].size >= b.want
    ensures FirstEnough(b, lines) >= b.want
  {
    var n := |lines| - 1;
    if i < n {
      assert lines[..n][i] == lines[i];
      assert Parsed(lines[..n]) by {
        assert forall j: nat :: j < n ==> lines[..n][j] == lines[j];
      }
      FirstEnoughFinds(b, lines[..n], i);
    } else if FirstEnough(b, lines[..n]) != 0 {
      FirstEnoughLarge(b, lines[..n]);
    }
  }

  lemma {:induction false} FirstEnoughLarge(b: Bounds, lines: seq<Line>)
    ensures FirstEnough(b, lines) == 0 || FirstEnough(b, lines) >= b.want
  {
    if lines != [] {
      FirstEnoughLarge(b, lines[..|lines| - 1]);
    }
  }

  /**
   If some candidate is large enough, so is the chosen size, and no candidate above the wish is
   smaller; otherwise the chosen size is the largest there is.
   */
  lemma {:induction false} BestIsGood(b: Bounds, lines: seq<Line>, i: nat)
    requires b.want > 0 && Parsed(lines) && i < |lines| && Candidate(b, lines[i])
    ensures var best := Scan(b, lines).best;
            && (lines[i].size >= b.want ==> best >= b.want)
            && (lines[i].size > b.want ==> best <= lines[i].size)
            && (best < b.want ==> lines[i].size <= best)
  {
    ScanKnows(b, lines);
    if lines[i].size >= b.want {
      FirstEnoughFinds(b, lines, i);
    }
    FirstEnoughLarge(b, lines);
  }

  /** The wanted size itself is settled on exactly if the first large enough candidate has it. */
  lemma {:induction false} WantedSizeTaken(b: Bounds, lines: seq<Line>)
    requires b.want > 0 && Parsed(lines)
    ensures Scan(b, lines).best == b.want <==> FirstEnough(b, lines) == b.want
  {
    ScanKnows(b, lines);
    FirstEnoughLarge(b, lines);
  }

  /** A candidate of the wanted size behind a larger one is passed over. */
  lemma {:induction false} WantedSizePassedOver()
    ensures var b, lines := Bounds(1024, 2048, 8192), [Group(3072, 2, 7), Group(2048, 2, 5)];
            Parsed(lines) && Candidate(b, lines[1]) && lines[1].size == b.want && Scan(b, lines) == Tally(3072, 1)
  {
    var b, lines := Bounds(1024, 2048, 8192), [Group(3072, 2, 7), Group(2048, 2, 5)];
    assert lines[..1] == [lines[0]] && lines[..1][..0] == [];
    assert Scan(b, lines[..1]) == Step(b, Tally(0, 0), lines[0]) == Tally(3072, 1);
    assert Scan(b, lines) == Step(b, Tally(3072, 1), lines[1]);
  }

  // ---- the second pass ----

  /** The candidate of that size with `which` others in front of it. */
  ghost predicate IsNth(b: Bounds, lines: seq<Line>, size: int, which: nat, l: Line) {
    exists i: nat :: i < |lines| && lines[i] == l && Candidate(b, l) && l.size == size && CountOf(b, lines[..i], size) == which
  }

  datatype Choice = Fixed | Chosen(group: Line) | Disappeared

  function Nth(b: Bounds, lines: seq<Line>, size: int, which: nat): (r: Choice)
    ensures r.Chosen? ==> Candidate(b, r.group) && r.group.size == size
  {
    if lines == [] then Disappeared
    else
      var n := |lines| - 1;
      var r := Nth(b, lines[..n], size, which);
      if r.Chosen? then r
      else if Candidate(b, lines[n]) && lines[n].size == size && CountOf(b, lines[..n], size) == which then Chosen(lines[n])
      else Disappeared
  }

  lemma {:induction false} NthExists(b: Bounds, lines: seq<Line>, size: int, which: nat)
    ensures Nth(b, lines, size, which) == Disappeared <==> CountOf(b, lines, size) <= which
    ensures !Nth(b, lines, size, which).Fixed?
    ensures Nth(b, lines, size, which).Chosen? ==> IsNth(b, lines, size, which, Nth(b, lines, size, which).group)
  {
    if lines != [] {
      var n := |lines| - 1;
      var h := lines[..n];
      NthExists(b, h, size, which);
      var r := Nth(b, h, size, which);
      if r.Chosen? {
        var i: nat :| i < |h| && h[i] == r.group && CountOf(b, h[..i], size) == which;
        assert lines[i] == h[i] && lines[..i] == h[..i];
      }
    }
  }

  /** What choose_dh returns. */
  function Selection(b: Bounds, lines: seq<Line>, rnd: nat): (r: Choice) {
    var t := Scan(b, lines);
    if t.count == 0 then Fixed else Nth(b, lines, t.best, rnd % t.count)
  }

  /** A group within the bounds, or the fixed one; the second pass never misses it. */
  lemma {:induction false} SelectionInBounds(b: Bounds, lines: seq<Line>, rnd: nat)
    requires Parsed(lines)
    ensures !Selection(b, lines, rnd).Disappeared?
    ensures Selection(b, lines, rnd).Chosen? ==> Candidate(b, Selection(b, lines, rnd).group)
    ensures Selection(b, lines, rnd).Fixed? <==> b.want <= 0 || !AnyCandidate(b, lines)
  {
    if b.want > 0 {
      ScanKnows(b, lines);
      var t := Scan(b, lines);
      if t.count > 0 {
        NthExists(b, lines, t.best, rnd % t.count);
      }
    } else {
      NothingWanted(b, lines);
    }
  }

  method FirstPass(b: Bounds, lines: seq<Line>) returns (best: nat, bestcount: nat)
    ensures Tally(best, bestcount) == Scan(b, lines)
  {
    best, bestcount := 0, 0;
    for i := 0 to |lines|
      invariant Tally(best, bestcount) == Scan(b, lines[..i])
    {
      assert lines[..i + 1][..i] == lines[..i];
      var l := lines[i];
      if l.Junk? {
        continue;
      }
      if l.size > b.max || l.size < b.min {
        continue;
      }
      if (l.size > b.want && l.size < best) || (l.size > best && best < b.want) {
        best := l.size;
        bestcount := 0;
      }
      if l.size == best {
        bestcount := bestcount + 1;
      }
    }
    assert lines[..|lines|] == lines;
  }

  method SecondPass(b: Bounds, lines: seq<Line>, best: nat, which: nat) returns (r: Choice)
    ensures r == Nth(b, lines, best, which)
    ensures r.Chosen? ==> IsNth(b, lines, best, which, r.group)
    ensures r.Disappeared? <==> CountOf(b, lines, best) <= which
  {
    var linenum := 0;
    for i := 0 to |lines|
      invariant linenum == CountOf(b, lines[..i], best) <= which
      invariant Nth(b, lines[..i], best, which) == Disappeared
    {
      assert lines[..i + 1][..i] == lines[..i];
      var l := lines[i];
      if l.Junk? {
        continue;
      }
      if l.size > b.max || l.size < b.min || l.size != best {
        continue;
      }
      linenum := linenum + 1;
      if linenum - 1 != which {
        continue;
      }
      assert IsNth(b, lines, best, which, l);
      CountGrows(b, lines, best, i + 1);
      NthKept(b, lines, best, which, i + 1);
      return Chosen(l);
    }
    assert lines[..|lines|] == lines;
    r := Disappeared;
  }

  lemma {:induction false} NthKept(b: Bounds, lines: seq<Line>, size: int, which: nat, i: nat)
    requires i <= |lines| && Nth(b, lines[..i], size, which).Chosen?
    ensures Nth(b, lines, size, which) == Nth(b, lines[..i], size, which)
  {
    if i < |lines| {
      var n := |lines| - 1;
      assert lines[..n][..i] == lines[..i];
      NthKept(b, lines[..n], size, which, i);
    } else {
      assert lines[..i] == lines;
    }
  }

  lemma {:induction false} CountGrows(b: Bounds, lines: seq<Line>, size: int, i: nat)
    requires i <= |lines|
    ensures CountOf(b, lines[..i], size) <= CountOf(b, lines, size)
  {
    if i < |lines| {
      var n := |lines| - 1;
      CountGrows(b, lines[..n], size, i);
      assert lines[..n][..i] == lines[..i];
    } else {
      assert lines[..i] == lines;
    }
  }

  /**
   choose_dh: the fixed group if nothing suits, otherwise the candidate of the best size that
   the random number selects; the second pass never misses it.
   */
  method Choose(b: Bounds, lines: seq<Line>, rnd: nat) returns (r: Choice)
    requires Parsed(lines)
    ensures r == Selection(b, lines, rnd) && !r.Disappeared?
    ensures r.Fixed? <==> b.want <= 0 || !AnyCandidate(b, lines)
    ensures r.Chosen? ==> r.group.Group? && Best(b, lines, r.group.size) && CountOf(b, lines, r.group.size) > 0
    ensures r.Chosen? ==> IsNth(b, lines, r.group.size, rnd % CountOf(b, lines, r.group.size), r.group)
  {
    if b.want > 0 {
      ScanKnows(b, lines);
    } else {
      NothingWanted(b, lines);
    }
    var best, bestcount := FirstPass(b, lines);
    if bestcount == 0 {
      return Fixed;
    }
    var which := rnd % bestcount;
    r := SecondPass(b, lines, best, which);
  }
}
