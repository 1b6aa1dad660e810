/** The computer player of Dots and Boxes: listing the lines still free,
    finding the lines that complete a box, recognising the lines that leave a
    box with three sides, and the three difficulty tiers built from them. */
module Policy {
  import opened Grid
  import opened Capture
  import opened Wrappers

  datatype Difficulty = Easy | Medium | Hard

  predicate Distinct<T(==)>(s: seq<T>) {
    forall i, j | 0 <= i < j < |s| :: s[i] != s[j]
  }

  lemma DistinctPush<T>(s: seq<T>, x: T)
    requires Distinct(s) && x !in s
    ensures Distinct(s + [x])
  {
  }

  /** `l` is a line of the board that has not been drawn. */
  predicate Undrawn(rows: int, cols: int, current: set<Line>, l: Line) {
    ValidLine(rows, cols, l) && l !in current
  }

  /** Drawing `l` would enclose some box nobody owns yet. */
  predicate Completing(rows: int, cols: int, current: set<Line>, owned: set<Box>, l: Line) {
    NewCaptures(rows, cols, current + {l}, owned) != {}
  }

  /** `b` is a board box nobody owns with exactly three of its sides in `lines`. */
  predicate ThreeSided(rows: int, cols: int, lines: set<Line>, owned: set<Box>, b: Box) {
    ValidBox(rows, cols, b) && b !in owned && SideCount(lines, b) == 3
  }

  /** Drawing `l` would leave some box nobody owns with exactly three sides. */
  ghost predicate Dangerous(rows: int, cols: int, current: set<Line>, owned: set<Box>, l: Line) {
    exists b :: ThreeSided(rows, cols, current + {l}, owned, b)
  }

  ghost predicate AnyUndrawn(rows: int, cols: int, current: set<Line>) {
    exists l :: Undrawn(rows, cols, current, l)
  }

  ghost predicate AnyCompleting(rows: int, cols: int, current: set<Line>, owned: set<Box>) {
    exists l :: Undrawn(rows, cols, current, l) && Completing(rows, cols, current, owned, l)
  }

  ghost predicate AnySafe(rows: int, cols: int, current: set<Line>, owned: set<Box>) {
    exists l :: Undrawn(rows, cols, current, l) && !Dangerous(rows, cols, current, owned, l)
  }

  /** The lines a computer player of difficulty `d` chooses among, uniformly. */
  ghost predicate Candidate(d: Difficulty, rows: int, cols: int, current: set<Line>, owned: set<Box>, l: Line) {
    Undrawn(rows, cols, current, l) &&
    match d
    case Easy => true
    case Medium =>
      AnyCompleting(rows, cols, current, owned) ==> Completing(rows, cols, current, owned, l)
    case Hard =>
      if AnyCompleting(rows, cols, current, owned) then Completing(rows, cols, current, owned, l)
      else AnySafe(rows, cols, current, owned) ==> !Dangerous(rows, cols, current, owned, l)
  }

  // ---------- listing the free lines ----------

  function Rank(k: Orientation): nat {
    match k
    case Horizontal => 0
    case Vertical => 1
  }

  /** Line `l` is listed before the `k`-th line at dot (r, c): the
      horizontal line at a dot is listed before its vertical line. */
  predicate Earlier(l: Line, r: int, c: int, k: nat) {
    l.r < r || (l.r == r && (l.c < c || (l.c == c && Rank(l.kind) < k)))
  }

  /** `avail` lists exactly the free lines listed before the `k`-th line at (r, c). */
  ghost predicate Listed(rows: int, cols: int, current: set<Line>, avail: seq<Line>, r: int, c: int, k: nat) {
    Distinct(avail) &&
    forall l :: l in avail <==> Undrawn(rows, cols, current, l) && Earlier(l, r, c, k)
  }

  lemma ListTaken(rows: int, cols: int, current: set<Line>, avail: seq<Line>, r: int, c: int, kind: Orientation)
    requires Listed(rows, cols, current, avail, r, c, Rank(kind))
    requires Undrawn(rows, cols, current, Line(kind, r, c))
    ensures Listed(rows, cols, current, avail + [Line(kind, r, c)], r, c, Rank(kind) + 1)
  {
    DistinctPush(avail, Line(kind, r, c));
  }

  lemma ListSkipped(rows: int, cols: int, current: set<Line>, avail: seq<Line>, r: int, c: int, kind: Orientation)
    requires Listed(rows, cols, current, avail, r, c, Rank(kind))
    requires !Undrawn(rows, cols, current, Line(kind, r, c))
    ensures Listed(rows, cols, current, avail, r, c, Rank(kind) + 1)
  {
  }

  lemma ListNextDot(rows: int, cols: int, current: set<Line>, avail: seq<Line>, r: int, c: int)
    requires Listed(rows, cols, current, avail, r, c, 2)
    ensures Listed(rows, cols, current, avail, r, c + 1, 0)
  {
  }

  lemma ListNextRow(rows: int, cols: int, current: set<Line>, avail: seq<Line>, r: int, c: int)
    requires Listed(rows, cols, current, avail, r, c, 0) && c == Clamp(cols)
    ensures Listed(rows, cols, current, avail, r + 1, 0, 0)
  {
  }

  lemma ListDone(rows: int, cols: int, current: set<Line>, avail: seq<Line>, r: int)
    requires Listed(rows, cols, current, avail, r, 0, 0) && r == Clamp(rows)
    ensures forall l :: l in avail <==> Undrawn(rows, cols, current, l)
  {
  }

  /** Every line of the board not in `currentLines`, each listed once, row
      by row and, at each dot, the horizontal line before the vertical one. */
  method GetAllAvailableLines(rows: int, cols: int, currentLines: set<Line>) returns (available: seq<Line>)
    ensures Distinct(available)
    ensures forall l :: l in available <==> Undrawn(rows, cols, currentLines, l)
  {
    available := [];
    var r := 0;
    while r < rows
      invariant 0 <= r <= Clamp(rows)
      invariant Listed(rows, cols, currentLines, available, r, 0, 0)
    {
      var c := 0;
      while c < cols
        invariant 0 <= c <= Clamp(cols)
        invariant Listed(rows, cols, currentLines, available, r, c, 0)
      {
        var keyH := Line(Horizontal, r, c);
        if c < cols - 1 && keyH !in currentLines {
          ListTaken(rows, cols, currentLines, available, r, c, Horizontal);
          available := available + [keyH];
        } else {
          ListSkipped(rows, cols, currentLines, available, r, c, Horizontal);
        }
        var keyV := Line(Vertical, r, c);
        if r < rows - 1 && keyV !in currentLines {
          ListTaken(rows, cols, currentLines, available, r, c, Vertical);
          available := available + [keyV];
        } else {
          ListSkipped(rows, cols, currentLines, available, r, c, Vertical);
        }
        ListNextDot(rows, cols, currentLines, available, r, c);
        c := c + 1;
      }
      ListNextRow(rows, cols, currentLines, available, r, c);
      r := r + 1;
    }
    ListDone(rows, cols, currentLines, available, r);
  }

  /** A list without repeats is as long as the set of its elements. */
  lemma {:induction false} DistinctCard<T>(s: seq<T>)
    requires Distinct(s)
    ensures |set x | x in s| == |s|
  {
    if s != [] {
      var n := |s| - 1;
      DistinctCard(s[..n]);
      assert (set x | x in s) == (set x | x in s[..n]) + {s[n]};
    } else {
      assert (set x | x in s) == {};
    }
  }

  /** On an empty board there are rows(cols-1) + (rows-1)cols free lines. */
  lemma EmptyBoardLineCount(rows: int, cols: int, available: seq<Line>)
    requires rows >= 1 && cols >= 1
    requires Distinct(available)
    requires forall l :: l in available <==> Undrawn(rows, cols, {}, l)
    ensures |available| == rows * (cols - 1) + (rows - 1) * cols
  {
    DistinctCard(available);
    forall l ensures l in available <==> l in AllLines(rows, cols) {
      AllLinesExact(rows, cols, l);
    }
    assert (set x | x in available) == AllLines(rows, cols);
    LineCount(rows, cols);
  }

  // ---------- box scans with early exit ----------

  /** No box satisfying the scan's test comes before box (r, c). */
  ghost predicate NoCaptureBefore(rows: int, cols: int, lines: set<Line>, owned: set<Box>, r: int, c: int) {
    forall b | Capturable(rows, cols, lines, owned, b) :: !Before(b, r, c)
  }

  ghost predicate NoThreeSidedBefore(rows: int, cols: int, lines: set<Line>, owned: set<Box>, r: int, c: int) {
    forall b | ThreeSided(rows, cols, lines, owned, b) :: !Before(b, r, c)
  }

  lemma CaptureScanStep(rows: int, cols: int, lines: set<Line>, owned: set<Box>, r: int, c: int)
    requires NoCaptureBefore(rows, cols, lines, owned, r, c)
    requires !Capturable(rows, cols, lines, owned, Box(r, c))
    ensures NoCaptureBefore(rows, cols, lines, owned, r, c + 1)
  {
  }

  lemma CaptureScanRow(rows: int, cols: int, lines: set<Line>, owned: set<Box>, r: int, c: int)
    requires NoCaptureBefore(rows, cols, lines, owned, r, c) && c == Clamp(cols - 1)
    ensures NoCaptureBefore(rows, cols, lines, owned, r + 1, 0)
  {
  }

  lemma CaptureScanDone(rows: int, cols: int, lines: set<Line>, owned: set<Box>, r: int)
    requires NoCaptureBefore(rows, cols, lines, owned, r, 0) && r == Clamp(rows - 1)
    ensures NewCaptures(rows, cols, lines, owned) == {}
  {
    NewCapturesExact(rows, cols, lines, owned);
  }

  lemma CaptureFound(rows: int, cols: int, lines: set<Line>, owned: set<Box>, b: Box)
    requires Capturable(rows, cols, lines, owned, b)
    ensures NewCaptures(rows, cols, lines, owned) != {}
  {
    NewCapturesExact(rows, cols, lines, owned);
  }

  lemma ThreeScanStep(rows: int, cols: int, lines: set<Line>, owned: set<Box>, r: int, c: int)
    requires NoThreeSidedBefore(rows, cols, lines, owned, r, c)
    requires !ThreeSided(rows, cols, lines, owned, Box(r, c))
    ensures NoThreeSidedBefore(rows, cols, lines, owned, r, c + 1)
  {
  }

  lemma ThreeScanRow(rows: int, cols: int, lines: set<Line>, owned: set<Box>, r: int, c: int)
    requires NoThreeSidedBefore(rows, cols, lines, owned, r, c) && c == Clamp(cols - 1)
    ensures NoThreeSidedBefore(rows, cols, lines, owned, r + 1, 0)
  {
  }

  lemma ThreeScanDone(rows: int, cols: int, lines: set<Line>, owned: set<Box>, r: int)
    requires NoThreeSidedBefore(rows, cols, lines, owned, r, 0) && r == Clamp(rows - 1)
    ensures forall b :: !ThreeSided(rows, cols, lines, owned, b)
  {
  }

  /** Whether `newLines` encloses some box not in `owned`; the scan stops at
      the first such box. */
  method CreatesBox(rows: int, cols: int, newLines: set<Line>, owned: set<Box>) returns (createdBox: bool)
    ensures createdBox <==> NewCaptures(rows, cols, newLines, owned) != {}
  {
    createdBox := false;
    var r := 0;
    while r < rows - 1 && !createdBox
      invariant 0 <= r <= Clamp(rows - 1)
      invariant createdBox ==> NewCaptures(rows, cols, newLines, owned) != {}
      invariant !createdBox ==> NoCaptureBefore(rows, cols, newLines, owned, r, 0)
    {
      var c := 0;
      while c < cols - 1 && !createdBox
        invariant 0 <= c <= Clamp(cols - 1)
        invariant createdBox ==> NewCaptures(rows, cols, newLines, owned) != {}
        invariant !createdBox ==> NoCaptureBefore(rows, cols, newLines, owned, r, c)
      {
        var box := Box(r, c);
        if box !in owned && Top(box) in newLines && Bottom(box) in newLines
           && Left(box) in newLines && Right(box) in newLines {
          CaptureFound(rows, cols, newLines, owned, box);
          createdBox := true;
        } else {
          CaptureScanStep(rows, cols, newLines, owned, r, c);
        }
        c := c + 1;
      }
      if !createdBox {
        CaptureScanRow(rows, cols, newLines, owned, r, c);
      }
      r := r + 1;
    }
    if !createdBox {
      CaptureScanDone(rows, cols, newLines, owned, r);
    }
  }

  /** Whether drawing `move` would leave some box nobody owns with exactly
      three drawn sides; the scan stops at the first such box. */
  method IsDangerousMove(rows: int, cols: int, move: Line, currentLines: set<Line>, owned: set<Box>)
    returns (dangerous: bool)
    ensures dangerous <==> Dangerous(rows, cols, currentLines, owned, move)
  {
    var newLines := currentLines + {move};
    var r := 0;
    while r < rows - 1
      invariant 0 <= r <= Clamp(rows - 1)
      invariant NoThreeSidedBefore(rows, cols, newLines, owned, r, 0)
    {
      var c := 0;
      while c < cols - 1
        invariant 0 <= c <= Clamp(cols - 1)
        invariant NoThreeSidedBefore(rows, cols, newLines, owned, r, c)
      {
        var box := Box(r, c);
        var count := SideCount(newLines, box);
        if count == 3 && box !in owned {
          assert ThreeSided(rows, cols, newLines, owned, box);
          return true;
        }
        ThreeScanStep(rows, cols, newLines, owned, r, c);
        c := c + 1;
      }
      ThreeScanRow(rows, cols, newLines, owned, r, c);
      r := r + 1;
    }
    ThreeScanDone(rows, cols, newLines, owned, r);
    return false;
  }

  // ---------- the moves that complete a box ----------

  /** `moves` holds, without repeats, exactly those of the first `i` entries
      of `all` that complete a box. */
  ghost predicate CompletingPrefix(rows: int, cols: int, current: set<Line>, owned: set<Box>,
                                   all: seq<Line>, i: int, moves: seq<Line>)
    requires 0 <= i <= |all|
  {
    Distinct(moves) &&
    forall m :: m in moves <==> m in all[..i] && Completing(rows, cols, current, owned, m)
  }

  lemma PrefixStep(rows: int, cols: int, current: set<Line>, owned: set<Box>,
                   all: seq<Line>, i: int, moves: seq<Line>, take: bool)
    requires Distinct(all) && 0 <= i < |all|
    requires CompletingPrefix(rows, cols, current, owned, all, i, moves)
    requires take == Completing(rows, cols, current, owned, all[i])
    ensures CompletingPrefix(rows, cols, current, owned, all, i + 1, if take then moves + [all[i]] else moves)
  {
    assert all[..i + 1] == all[..i] + [all[i]];
    if take {
      assert all[i] !in all[..i];
      DistinctPush(moves, all[i]);
    }
  }

  /** The free lines whose drawing would complete at least one box nobody owns. */
  method FindBoxCompletingMoves(rows: int, cols: int, currentLines: set<Line>, owned: set<Box>)
    returns (moves: seq<Line>)
    ensures Distinct(moves)
    ensures forall m :: m in moves <==>
              Undrawn(rows, cols, currentLines, m) && Completing(rows, cols, currentLines, owned, m)
  {
    moves := [];
    var allLines := GetAllAvailableLines(rows, cols, currentLines);
    var i := 0;
    while i < |allLines|
      invariant 0 <= i <= |allLines|
      invariant CompletingPrefix(rows, cols, currentLines, owned, allLines, i, moves)
    {
      var move := allLines[i];
      var newLines := currentLines + {move};
      var createdBox := CreatesBox(rows, cols, newLines, owned);
      PrefixStep(rows, cols, currentLines, owned, allLines, i, moves, createdBox);
      if createdBox {
        moves := moves + [move];
      }
      i := i + 1;
    }
    assert allLines[..i] == allLines;
  }

  // ---------- the safe moves (hard tier) ----------

  ghost predicate SafePrefix(rows: int, cols: int, current: set<Line>, owned: set<Box>,
                             all: seq<Line>, i: int, safe: seq<Line>)
    requires 0 <= i <= |all|
  {
    Distinct(safe) &&
    forall m :: m in safe <==> m in all[..i] && !Dangerous(rows, cols, current, owned, m)
  }

  lemma SafeStep(rows: int, cols: int, current: set<Line>, owned: set<Box>,
                 all: seq<Line>, i: int, safe: seq<Line>, take: bool)
    requires Distinct(all) && 0 <= i < |all|
    requires SafePrefix(rows, cols, current, owned, all, i, safe)
    requires take == !Dangerous(rows, cols, current, owned, all[i])
    ensures SafePrefix(rows, cols, current, owned, all, i + 1, if take then safe + [all[i]] else safe)
  {
    assert all[..i + 1] == all[..i] + [all[i]];
    if take {
      assert all[i] !in all[..i];
      DistinctPush(safe, all[i]);
    }
  }

  /** The entries of `allMoves` that are not dangerous, in order. */
  method SafeMoves(rows: int, cols: int, allMoves: seq<Line>, currentLines: set<Line>, owned: set<Box>)
    returns (safeMoves: seq<Line>)
    requires Distinct(allMoves)
    ensures Distinct(safeMoves)
    ensures forall m :: m in safeMoves <==> m in allMoves && !Dangerous(rows, cols, currentLines, owned, m)
  {
    safeMoves := [];
    var i := 0;
    while i < |allMoves|
      invariant 0 <= i <= |allMoves|
      invariant SafePrefix(rows, cols, currentLines, owned, allMoves, i, safeMoves)
    {
      var dangerous := IsDangerousMove(rows, cols, allMoves[i], currentLines, owned);
      SafeStep(rows, cols, currentLines, owned, allMoves, i, safeMoves, !dangerous);
      if !dangerous {
        safeMoves := safeMoves + [allMoves[i]];
      }
      i := i + 1;
    }
    assert allMoves[..i] == allMoves;
  }

  // ---------- the three tiers ----------

  /** The line a computer player of difficulty `d` draws. `pool` is the list
      the random pick is made from and `roll` stands for the random number:
      the pick is `pool[roll % |pool|]`, so every line of `pool` can be the
      one drawn. Nothing is drawn when no line is free. */
  method ChooseLine(d: Difficulty, rows: int, cols: int, currentLines: set<Line>, owned: set<Box>, roll: nat)
    returns (pool: seq<Line>, chosen: Option<Line>)
    ensures Distinct(pool)
    ensures forall l :: l in pool <==> Candidate(d, rows, cols, currentLines, owned, l)
    ensures chosen.None? <==> pool == []
    ensures chosen.Some? ==> chosen.value == pool[roll % |pool|]
    ensures chosen.None? <==> !AnyUndrawn(rows, cols, currentLines)
    ensures chosen.Some? ==> Undrawn(rows, cols, currentLines, chosen.value)
    ensures d != Easy && AnyCompleting(rows, cols, currentLines, owned) ==>
              chosen.Some? && Completing(rows, cols, currentLines, owned, chosen.value)
    ensures d == Hard && !AnyCompleting(rows, cols, currentLines, owned) && AnySafe(rows, cols, currentLines, owned) ==>
              chosen.Some? && !Dangerous(rows, cols, currentLines, owned, chosen.value)
  {
    var completingMoves := FindBoxCompletingMoves(rows, cols, currentLines, owned);
    assert AnyCompleting(rows, cols, currentLines, owned) <==> completingMoves != [] by {
      if completingMoves != [] {
        assert completingMoves[0] in completingMoves;
      }
    }
    var all := GetAllAvailableLines(rows, cols, currentLines);
    assert AnyUndrawn(rows, cols, currentLines) <==> all != [] by {
      if all != [] {
        assert all[0] in all;
      }
    }
    match d {
      case Easy =>
        pool := all;
      case Medium =>
        pool := if |completingMoves| > 0 then completingMoves else all;
      case Hard =>
        if |completingMoves| > 0 {
          pool := completingMoves;
        } else {
          var safeMoves := SafeMoves(rows, cols, all, currentLines, owned);
          assert AnySafe(rows, cols, currentLines, owned) <==> safeMoves != [] by {
            if safeMoves != [] {
              assert safeMoves[0] in safeMoves;
            }
          }
          pool := if |safeMoves| > 0 then safeMoves else all;
        }
    }
    if |pool| == 0 {
      chosen := None;
    } else {
      chosen := Some(pool[roll % |pool|]);
      assert chosen.value in pool;
    }
  }

  // ---------- what a dangerous move is ----------

  /** Adding a line raises a box's side count by one when the line is one of
      its sides and leaves it alone otherwise. */
  lemma SideCountAdd(lines: set<Line>, b: Box, l: Line)
    requires l !in lines
    ensures SideCount(lines + {l}, b) == SideCount(lines, b) + (if l in Sides(b) then 1 else 0)
  {
  }

  /** An unowned board box with three sides drawn makes its fourth side a
      completing move. */
  lemma ThreeSidedCompletes(rows: int, cols: int, current: set<Line>, owned: set<Box>, b: Box)
    ensures ThreeSided(rows, cols, current, owned, b) ==> AnyCompleting(rows, cols, current, owned)
  {
    if !ThreeSided(rows, cols, current, owned, b) {
      return;
    }
    var m := if Top(b) !in current then Top(b)
             else if Bottom(b) !in current then Bottom(b)
             else if Left(b) !in current then Left(b)
             else Right(b);
    SidesValid(rows, cols, b);
    assert Enclosed(current + {m}, b);
    CaptureFound(rows, cols, current + {m}, owned, b);
    assert Undrawn(rows, cols, current, m) && Completing(rows, cols, current, owned, m);
  }

  /** Where hard mode looks for a safe move no line completes a box, and
      there a free line is dangerous exactly when it is a side of an unowned
      box that has exactly two of its sides drawn: such a move hands that box
      to the next player. */
  lemma DangerousWhenNoneCompleting(rows: int, cols: int, current: set<Line>, owned: set<Box>, l: Line)
    requires Undrawn(rows, cols, current, l)
    requires !AnyCompleting(rows, cols, current, owned)
    ensures Dangerous(rows, cols, current, owned, l) <==>
            exists b :: ValidBox(rows, cols, b) && b !in owned && l in Sides(b) && SideCount(current, b) == 2
  {
    if Dangerous(rows, cols, current, owned, l) {
      var b :| ThreeSided(rows, cols, current + {l}, owned, b);
      SideCountAdd(current, b, l);
      ThreeSidedCompletes(rows, cols, current, owned, b);
      assert l in Sides(b) && SideCount(current, b) == 2;
    }
    if exists b :: ValidBox(rows, cols, b) && b !in owned && l in Sides(b) && SideCount(current, b) == 2 {
      var b :| ValidBox(rows, cols, b) && b !in owned && l in Sides(b) && SideCount(current, b) == 2;
      SideCountAdd(current, b, l);
      assert ThreeSided(rows, cols, current + {l}, owned, b);
    }
  }
}
