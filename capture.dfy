/** Players, box ownership and the capture scan that runs after every line
    is drawn in Dots and Boxes. */
module Capture {
  import opened Grid

  /** A player's colour, `hsl(slot * (360 / of), 70%, 50%)`, kept symbolic. */
  datatype Color = Hsl(slot: nat, of: nat)

  datatype Player = Player(
    id: nat,
    name: string,
    initial: string,
    color: Color,
    score: nat,
    isComputer: bool)

  /** What a captured box records: the capturing player's initial and colour. */
  datatype Owner = Owner(initial: string, color: Color)

  function OwnerOf(p: Player): Owner { Owner(p.initial, p.color) }

  /** The boxes not yet in `owned` that are enclosed by `lines`. */
  function NewCaptures(rows: int, cols: int, lines: set<Line>, owned: set<Box>): set<Box> {
    set b | b in AllBoxes(rows, cols) && b !in owned && Enclosed(lines, b)
  }

  lemma NewCapturesExact(rows: int, cols: int, lines: set<Line>, owned: set<Box>)
    ensures forall b :: b in NewCaptures(rows, cols, lines, owned) <==> Capturable(rows, cols, lines, owned, b)
  {
    forall b ensures b in AllBoxes(rows, cols) <==> ValidBox(rows, cols, b) {
      AllBoxesExact(rows, cols, b);
    }
  }

  /** `ps` with `k` added to the score of player `i`. */
  function Credit(ps: seq<Player>, i: nat, k: nat): seq<Player>
    requires i < |ps|
  {
    ps[i := ps[i].(score := ps[i].score + k)]
  }

  lemma CreditIs(ps: seq<Player>, i: nat, k: nat, score: nat)
    requires i < |ps| && score == ps[i].score + k
    ensures ps[i := ps[i].(score := score)] == Credit(ps, i, k)
  {
  }

  function TotalScore(ps: seq<Player>): nat {
    if ps == [] then 0 else TotalScore(ps[..|ps| - 1]) + ps[|ps| - 1].score
  }

  /** Crediting one player with `k` boxes raises the sum of all scores by `k`. */
  lemma {:induction false} TotalScoreCredit(ps: seq<Player>, i: nat, k: nat)
    requires i < |ps|
    ensures TotalScore(Credit(ps, i, k)) == TotalScore(ps) + k
  {
    var qs := Credit(ps, i, k);
    var n := |ps| - 1;
    if i == n {
      assert qs[..n] == ps[..n];
    } else {
      assert qs[..n] == Credit(ps[..n], i, k);
      TotalScoreCredit(ps[..n], i, k);
    }
  }

  /** Box `b` comes before box (r, c) in row-major order. */
  predicate Before(b: Box, r: int, c: int) {
    b.r < r || (b.r == r && b.c < c)
  }

  /** Box `b` is one that `NewCaptures` reports. */
  predicate Capturable(rows: int, cols: int, lines: set<Line>, owned: set<Box>, b: Box) {
    ValidBox(rows, cols, b) && b !in owned && Enclosed(lines, b)
  }

  function Clamp(n: int): nat { if n < 0 then 0 else n }

  /** `boxes` with every box of `caught` not already owned given to `owner`. */
  function Assign(boxes: map<Box, Owner>, caught: set<Box>, owner: Owner): (m: map<Box, Owner>)
    ensures m.Keys == boxes.Keys + caught
    ensures forall b | b in m :: m[b] == if b in boxes then boxes[b] else owner
  {
    map b | b in boxes.Keys + caught :: if b in boxes then boxes[b] else owner
  }

  lemma AssignOne(boxes: map<Box, Owner>, caught: set<Box>, owner: Owner, box: Box)
    requires box !in boxes
    ensures Assign(boxes, caught, owner)[box := owner] == Assign(boxes, caught + {box}, owner)
  {
  }

  /** `done` holds exactly the capturable boxes before box (r, c). */
  ghost predicate Found(rows: int, cols: int, lines: set<Line>, owned: set<Box>, done: set<Box>, r: int, c: int) {
    forall b :: b in done <==> Capturable(rows, cols, lines, owned, b) && Before(b, r, c)
  }

  /** Visiting a capturable box (r, c) adds it to the boxes found so far. */
  lemma VisitTaken(rows: int, cols: int, lines: set<Line>, owned: set<Box>, done: set<Box>, r: int, c: int)
    requires Found(rows, cols, lines, owned, done, r, c)
    requires Capturable(rows, cols, lines, owned, Box(r, c))
    ensures Box(r, c) !in done
    ensures Found(rows, cols, lines, owned, done + {Box(r, c)}, r, c + 1)
  {
  }

  /** Visiting a box (r, c) that is not capturable adds nothing. */
  lemma VisitSkipped(rows: int, cols: int, lines: set<Line>, owned: set<Box>, done: set<Box>, r: int, c: int)
    requires Found(rows, cols, lines, owned, done, r, c)
    requires !Capturable(rows, cols, lines, owned, Box(r, c))
    ensures Found(rows, cols, lines, owned, done, r, c + 1)
  {
  }

  lemma RowEnd(rows: int, cols: int, lines: set<Line>, owned: set<Box>, done: set<Box>, r: int, c: int)
    requires Found(rows, cols, lines, owned, done, r, c) && c == Clamp(cols - 1)
    ensures Found(rows, cols, lines, owned, done, r + 1, 0)
  {
  }

  lemma NotYetFound(rows: int, cols: int, lines: set<Line>, owned: set<Box>, done: set<Box>, r: int, c: int)
    requires Found(rows, cols, lines, owned, done, r, c)
    ensures Box(r, c) !in done
  {
  }

  /** Once every row has been visited, the boxes found are `NewCaptures`. */
  lemma ScanComplete(rows: int, cols: int, lines: set<Line>, owned: set<Box>, r: int, done: set<Box>)
    requires r == Clamp(rows - 1)
    requires Found(rows, cols, lines, owned, done, r, 0)
    ensures done == NewCaptures(rows, cols, lines, owned)
  {
    NewCapturesExact(rows, cols, lines, owned);
  }

  /** Row `r` of the scan: captures for `owner` the boxes of that row not
      yet owned whose four sides are drawn, adding one to `score` for each. */
  method CheckRow(rows: int, cols: int, newLines: set<Line>, boxes: map<Box, Owner>, r: int, owner: Owner,
                  newBoxes0: map<Box, Owner>, score0: nat, captured0: bool, ghost done0: set<Box>)
    returns (newBoxes: map<Box, Owner>, score: nat, captured: bool, ghost done: set<Box>)
    requires 0 <= r < rows - 1
    requires Found(rows, cols, newLines, boxes.Keys, done0, r, 0)
    requires newBoxes0 == Assign(boxes, done0, owner)
    requires captured0 == (done0 != {})
    ensures Found(rows, cols, newLines, boxes.Keys, done, r + 1, 0)
    ensures newBoxes == Assign(boxes, done, owner)
    ensures score + |done0| == score0 + |done|
    ensures captured == (done != {})
  {
    newBoxes, score, captured, done := newBoxes0, score0, captured0, done0;
    var c := 0;
    while c < cols - 1
      invariant 0 <= c <= Clamp(cols - 1)
      invariant Found(rows, cols, newLines, boxes.Keys, done, r, c)
      invariant newBoxes == Assign(boxes, done, owner)
      invariant score + |done0| == score0 + |done|
      invariant captured == (done != {})
    {
      var box := Box(r, c);
      NotYetFound(rows, cols, newLines, boxes.Keys, done, r, c);
      if box !in newBoxes {
        if Top(box) in newLines && Bottom(box) in newLines && Left(box) in newLines && Right(box) in newLines {
          VisitTaken(rows, cols, newLines, boxes.Keys, done, r, c);
          AssignOne(boxes, done, owner, box);
          newBoxes := newBoxes[box := owner];
          score := score + 1;
          captured := true;
          done := done + {box};
        } else {
          VisitSkipped(rows, cols, newLines, boxes.Keys, done, r, c);
        }
      } else {
        VisitSkipped(rows, cols, newLines, boxes.Keys, done, r, c);
      }
      c := c + 1;
    }
    RowEnd(rows, cols, newLines, boxes.Keys, done, r, c);
  }

  /** The scan run after a line is added: every box not yet captured whose
      four sides are in `newLines` goes to the player whose turn it is, who
      scores one point for each; that player keeps the turn after a capture
      and otherwise the turn passes on. `full` says that a capture has just
      made every box owned. */
  method CheckBoxes(rows: int, cols: int, newLines: set<Line>, boxes: map<Box, Owner>,
                    currentTurn: nat, currentPlayers: seq<Player>)
    returns (newBoxes: map<Box, Owner>, players: seq<Player>, nextTurn: nat, full: bool)
    requires currentTurn < |currentPlayers|
    ensures var caught := NewCaptures(rows, cols, newLines, boxes.Keys);
            && newBoxes == Assign(boxes, caught, OwnerOf(currentPlayers[currentTurn]))
            && players == Credit(currentPlayers, currentTurn, |caught|)
            && nextTurn == (if caught != {} then currentTurn else (currentTurn + 1) % |currentPlayers|)
            && full == (caught != {} && |newBoxes| == (rows - 1) * (cols - 1))
  {
    var boxCapturedThisTurn := false;
    newBoxes := boxes;
    var currentPlayer := currentPlayers[currentTurn];
    var owner := OwnerOf(currentPlayer);
    var score := currentPlayer.score;
    ghost var done := {};
    assert boxes == Assign(boxes, done, owner);
    var r := 0;
    while r < rows - 1
      invariant 0 <= r <= Clamp(rows - 1)
      invariant Found(rows, cols, newLines, boxes.Keys, done, r, 0)
      invariant newBoxes == Assign(boxes, done, owner)
      invariant score == currentPlayer.score + |done|
      invariant boxCapturedThisTurn == (done != {})
    {
      newBoxes, score, boxCapturedThisTurn, done :=
        CheckRow(rows, cols, newLines, boxes, r, owner, newBoxes, score, boxCapturedThisTurn, done);
      r := r + 1;
    }
    ScanComplete(rows, cols, newLines, boxes.Keys, r, done);
    // the mover's record, whose score the scan raised, back in the roster
    players := currentPlayers[currentTurn := currentPlayer.(score := score)];
    CreditIs(currentPlayers, currentTurn, |done|, score);
    if boxCapturedThisTurn {
      full := |newBoxes| == (rows - 1) * (cols - 1);
      nextTurn := currentTurn;
    } else {
      full := false;
      nextTurn := (currentTurn + 1) % |currentPlayers|;
    }
  }

  /** When every enclosed box is already owned, the boxes a new line
      captures are boxes that line borders: at most two of them. */
  lemma CapturesBorderLine(rows: int, cols: int, lines: set<Line>, owned: set<Box>, l: Line)
    requires forall b | ValidBox(rows, cols, b) && Enclosed(lines, b) :: b in owned
    ensures NewCaptures(rows, cols, lines + {l}, owned) <= Borders(rows, cols, l)
    ensures |NewCaptures(rows, cols, lines + {l}, owned)| <= 2
  {
    var caught := NewCaptures(rows, cols, lines + {l}, owned);
    NewCapturesExact(rows, cols, lines + {l}, owned);
    forall b | b in caught ensures b in Borders(rows, cols, l) {
      assert !Enclosed(lines, b);
      BordersExact(rows, cols, l, b);
    }
    BordersAtMostTwo(rows, cols, l);
    Subset(caught, Borders(rows, cols, l));
  }
}
