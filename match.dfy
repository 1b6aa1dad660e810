/** The Dots-and-Boxes turn engine: a match's state, what one click does to
    it, the invariants every move keeps, the roster built at the start of a
    match and the winner shown at its end. */
module DotsAndBoxes {
  import opened Grid
  import opened Capture
  import opened Policy
  import opened Wrappers

  /** Everything a move reads or changes. */
  datatype State = State(
    lines: set<Line>,
    boxes: map<Box, Owner>,
    players: seq<Player>,
    turn: nat,
    gameOver: bool)

  function TotalBoxes(rows: int, cols: int): int { (rows - 1) * (cols - 1) }

  /** Drawing the new line `l` for the player whose turn it is: every box
      that is now enclosed and was not owned goes to that player, who scores
      a point for each; a capture keeps the turn with the mover, otherwise it
      passes to the next player in roster order; a capture that leaves every
      box owned ends the game. */
  function Draw(rows: int, cols: int, s: State, l: Line): State
    requires s.turn < |s.players|
  {
    var newLines := s.lines + {l};
    var caught := NewCaptures(rows, cols, newLines, s.boxes.Keys);
    var newBoxes := Assign(s.boxes, caught, OwnerOf(s.players[s.turn]));
    State(
      newLines,
      newBoxes,
      Credit(s.players, s.turn, |caught|),
      if caught != {} then s.turn else (s.turn + 1) % |s.players|,
      s.gameOver || (caught != {} && |newBoxes| == TotalBoxes(rows, cols)))
  }

  /** A click on line `l`: ignored once the game is over or when `l` is
      already drawn, and otherwise `Draw`. */
  function Click(rows: int, cols: int, s: State, l: Line): State
    requires s.turn < |s.players|
  {
    if s.gameOver || l in s.lines then s else Draw(rows, cols, s, l)
  }

  /** What holds of every state of a match. */
  ghost predicate Inv(rows: int, cols: int, s: State) {
    && rows >= 2 && cols >= 2
    && 0 < |s.players| && s.turn < |s.players|
    && (forall i | 0 <= i < |s.players| :: s.players[i].id == i)
    && (forall b | b in s.boxes :: ValidBox(rows, cols, b))
    // a box is owned exactly when its four sides are drawn
    && (forall b | ValidBox(rows, cols, b) :: b in s.boxes <==> Enclosed(s.lines, b))
    && TotalScore(s.players) == |s.boxes|
    && (s.gameOver <==> |s.boxes| == TotalBoxes(rows, cols))
  }

  // ---------- the effect of one move ----------

  /** The boxes a move captures are exactly the board boxes that were not
      owned and have all four sides drawn once `l` is added; all of them
      record the mover, and every box owned before keeps its owner. */
  lemma DrawCaptures(rows: int, cols: int, s: State, l: Line)
    requires s.turn < |s.players|
    ensures var t := Draw(rows, cols, s, l);
            && (forall b :: b in t.boxes && b !in s.boxes <==>
                  ValidBox(rows, cols, b) && b !in s.boxes && Enclosed(s.lines + {l}, b))
            && (forall b | b in t.boxes && b !in s.boxes :: t.boxes[b] == OwnerOf(s.players[s.turn]))
            && (forall b | b in s.boxes :: b in t.boxes && t.boxes[b] == s.boxes[b])
  {
    NewCapturesExact(rows, cols, s.lines + {l}, s.boxes.Keys);
  }

  /** When every enclosed box was already owned, a move captures at most two
      boxes, each of them bordering the new line. */
  lemma DrawCapturesAtMostTwo(rows: int, cols: int, s: State, l: Line)
    requires Inv(rows, cols, s)
    ensures var t := Draw(rows, cols, s, l);
            && t.boxes.Keys - s.boxes.Keys <= Borders(rows, cols, l)
            && |t.boxes| - |s.boxes| <= 2
  {
    CapturesBorderLine(rows, cols, s.lines, s.boxes.Keys, l);
    var caught := NewCaptures(rows, cols, s.lines + {l}, s.boxes.Keys);
    assert Draw(rows, cols, s, l).boxes.Keys - s.boxes.Keys == caught;
  }

  /** A move adds `|caught|` to the mover's score and to the sum of scores. */
  lemma DrawScores(rows: int, cols: int, s: State, l: Line)
    requires s.turn < |s.players|
    ensures var t := Draw(rows, cols, s, l);
            && |t.boxes| == |s.boxes| + |NewCaptures(rows, cols, s.lines + {l}, s.boxes.Keys)|
            && TotalScore(t.players) == TotalScore(s.players) + (|t.boxes| - |s.boxes|)
  {
    var caught := NewCaptures(rows, cols, s.lines + {l}, s.boxes.Keys);
    NewCapturesExact(rows, cols, s.lines + {l}, s.boxes.Keys);
    assert s.boxes.Keys !! caught;
    TotalScoreCredit(s.players, s.turn, |caught|);
  }

  lemma DrawClosed(rows: int, cols: int, s: State, l: Line)
    requires Inv(rows, cols, s)
    ensures var t := Draw(rows, cols, s, l);
            && (forall b | b in t.boxes :: ValidBox(rows, cols, b))
            && (forall b | ValidBox(rows, cols, b) :: b in t.boxes <==> Enclosed(t.lines, b))
  {
    NewCapturesExact(rows, cols, s.lines + {l}, s.boxes.Keys);
  }

  /** Every legal move keeps the invariant: the turn stays a valid index,
      the sum of the scores stays the number of owned boxes, owned boxes stay
      exactly the enclosed ones, and the game is over exactly when every box
      is owned. */
  lemma {:induction false} DrawKeepsInv(rows: int, cols: int, s: State, l: Line)
    requires Inv(rows, cols, s) && !s.gameOver
    ensures Inv(rows, cols, Draw(rows, cols, s, l))
  {
    var t := Draw(rows, cols, s, l);
    DrawScores(rows, cols, s, l);
    DrawClosed(rows, cols, s, l);
    assert forall i | 0 <= i < |t.players| :: t.players[i].id == s.players[i].id;
    if t.boxes.Keys == s.boxes.Keys {
      assert NewCaptures(rows, cols, s.lines + {l}, s.boxes.Keys) == {};
    }
  }

  /** The move itself: the line is added and the capture scan runs for the
      player whose turn it is; the game ends when the scan reports that every
      box is owned. */
  method Move(rows: int, cols: int, s: State, l: Line) returns (t: State)
    requires s.turn < |s.players|
    ensures t == Draw(rows, cols, s, l)
  {
    var newLines := s.lines + {l};
    var newBoxes, newPlayers, nextTurn, full := CheckBoxes(rows, cols, newLines, s.boxes, s.turn, s.players);
    t := State(newLines, newBoxes, newPlayers, nextTurn, s.gameOver || full);
  }

  lemma ClickKeepsInv(rows: int, cols: int, s: State, l: Line)
    requires Inv(rows, cols, s)
    ensures Inv(rows, cols, Click(rows, cols, s, l))
  {
    if !s.gameOver && l !in s.lines {
      DrawKeepsInv(rows, cols, s, l);
    }
  }

  /** The turn rule: after a capture the mover moves again, otherwise the
      next player in roster order does. */
  lemma DrawTurn(rows: int, cols: int, s: State, l: Line)
    requires Inv(rows, cols, s)
    ensures var t := Draw(rows, cols, s, l);
            && (|t.boxes| > |s.boxes| ==> t.turn == s.turn)
            && (|t.boxes| == |s.boxes| ==> t.turn == (s.turn + 1) % |s.players|)
            && t.turn < |t.players|
  {
    DrawScores(rows, cols, s, l);
  }

  /** The drawn lines only grow, owned boxes keep their owners, no score
      goes down and a finished game stays finished. */
  lemma ClickMonotone(rows: int, cols: int, s: State, l: Line)
    requires s.turn < |s.players|
    ensures var t := Click(rows, cols, s, l);
            && s.lines <= t.lines
            && (forall b | b in s.boxes :: b in t.boxes && t.boxes[b] == s.boxes[b])
            && |t.players| == |s.players|
            && (forall i | 0 <= i < |s.players| :: t.players[i].score >= s.players[i].score)
            && (s.gameOver ==> t.gameOver)
  {
  }

  /** A click after the game is over, or on a drawn line, changes nothing. */
  lemma ClickRejected(rows: int, cols: int, s: State, l: Line)
    requires s.turn < |s.players|
    requires s.gameOver || l in s.lines
    ensures Click(rows, cols, s, l) == s
  {
  }

  lemma SameCard<T>(a: set<T>, b: set<T>)
    requires a <= b && |a| == |b|
    ensures a == b
  {
    assert |b - a| == |b| - |a|;
  }

  /** The game is over exactly when every box of the board is owned. */
  lemma GameOverExact(rows: int, cols: int, s: State)
    requires Inv(rows, cols, s)
    ensures s.gameOver <==> forall b | ValidBox(rows, cols, b) :: b in s.boxes
  {
    BoxCount(rows, cols);
    forall b ensures b in AllBoxes(rows, cols) <==> ValidBox(rows, cols, b) {
      AllBoxesExact(rows, cols, b);
    }
    assert s.boxes.Keys <= AllBoxes(rows, cols);
    if s.gameOver {
      SameCard(s.boxes.Keys, AllBoxes(rows, cols));
    }
    if forall b | ValidBox(rows, cols, b) :: b in s.boxes {
      assert s.boxes.Keys == AllBoxes(rows, cols);
    }
  }

  /** While the game is not over some line is still free, so the computer
      player always has a move. */
  lemma NotOverHasMove(rows: int, cols: int, s: State)
    requires Inv(rows, cols, s) && !s.gameOver
    ensures AnyUndrawn(rows, cols, s.lines)
  {
    GameOverExact(rows, cols, s);
    var b :| ValidBox(rows, cols, b) && b !in s.boxes;
    SidesValid(rows, cols, b);
    var l :| l in Sides(b) && l !in s.lines;
    assert Undrawn(rows, cols, s.lines, l);
  }

  // ---------- the roster ----------

  datatype HumanInput = HumanInput(name: string, initial: string)

  function Digit(d: nat): char
    requires d < 10
  {
    ('0' as int + d) as char
  }

  /** `n` written in decimal. */
  function Decimal(n: nat): string
    decreases n
  {
    if n < 10 then [Digit(n)] else Decimal(n / 10) + [Digit(n % 10)]
  }

  /** The name shown for the `i`-th human (from 0): the one entered, or
      `Player i+1` when left blank. */
  function HumanName(i: nat, p: HumanInput): string {
    if p.name == "" then "Player " + Decimal(i + 1) else p.name
  }

  /** The initial shown for the `i`-th human: the one entered, or the
      `i`-th capital letter when left blank. */
  function HumanInitial(i: nat, p: HumanInput): string
    requires i < 26
  {
    if p.initial == "" then [('A' as int + i) as char] else p.initial
  }

  /** Player `id` of the roster, seen as the `i`-th human. */
  predicate IsHuman(q: Player, id: nat, i: nat, p: HumanInput, total: nat)
    requires i < 26
  {
    q == Player(id, HumanName(i, p), HumanInitial(i, p), Hsl(id, total), 0, false)
  }

  /** Player `id` of the roster, seen as the `k`-th computer (from 0). */
  predicate IsComputer(q: Player, id: nat, k: nat, total: nat) {
    q == Player(id, "Com " + Decimal(k + 1), "C" + Decimal(k + 1), Hsl(id, total), 0, true)
  }

  /** The roster of a new match: the humans in the order entered, each named
      `Player i` and lettered A, B, ... when left blank, then the computers
      `Com 1` (`C1`), `Com 2` (`C2`), ...; every player's id is its position,
      every colour slot is its position among all the players, and every
      score is 0. */
  method BuildRoster(humans: seq<HumanInput>, numComputers: nat) returns (allPlayers: seq<Player>)
    requires |humans| <= 6
    ensures |allPlayers| == |humans| + numComputers
    ensures forall i | 0 <= i < |humans| ::
              IsHuman(allPlayers[i], i, i, humans[i], |allPlayers|)
    ensures forall i | |humans| <= i < |allPlayers| ::
              IsComputer(allPlayers[i], i, i - |humans|, |allPlayers|)
    ensures forall i | 0 <= i < |allPlayers| ::
              allPlayers[i].id == i && allPlayers[i].score == 0 && (allPlayers[i].isComputer <==> i >= |humans|)
    ensures TotalScore(allPlayers) == 0
  {
    var totalPlayers := if |humans| + numComputers == 0 then 1 else |humans| + numComputers;
    allPlayers := [];
    var i := 0;
    while i < |humans|
      invariant 0 <= i <= |humans| && |allPlayers| == i
      invariant forall j | 0 <= j < i :: IsHuman(allPlayers[j], j, j, humans[j], totalPlayers)
    {
      var p := humans[i];
      allPlayers := allPlayers + [Player(
        |allPlayers|,
        if p.name == "" then "Player " + Decimal(i + 1) else p.name,
        if p.initial == "" then [('A' as int + i) as char] else p.initial,
        Hsl(|allPlayers|, totalPlayers),
        0,
        false)];
      i := i + 1;
    }
    i := 0;
    while i < numComputers
      invariant 0 <= i <= numComputers && |allPlayers| == |humans| + i
      invariant forall j | 0 <= j < |humans| :: IsHuman(allPlayers[j], j, j, humans[j], totalPlayers)
      invariant forall j | |humans| <= j < |allPlayers| :: IsComputer(allPlayers[j], j, j - |humans|, totalPlayers)
    {
      allPlayers := allPlayers + [Player(
        |allPlayers|,
        "Com " + Decimal(i + 1),
        "C" + Decimal(i + 1),
        Hsl(|allPlayers|, totalPlayers),
        0,
        true)];
      i := i + 1;
    }
    ZeroScores(allPlayers);
  }

  lemma {:induction false} ZeroScores(ps: seq<Player>)
    requires forall i | 0 <= i < |ps| :: ps[i].score == 0
    ensures TotalScore(ps) == 0
  {
    if ps != [] {
      ZeroScores(ps[..|ps| - 1]);
    }
  }

  /** A fresh match satisfies the invariant. */
  lemma StartKeepsInv(rows: int, cols: int, players: seq<Player>)
    requires rows >= 2 && cols >= 2 && |players| > 0
    requires forall i | 0 <= i < |players| :: players[i].id == i
    requires TotalScore(players) == 0
    ensures Inv(rows, cols, State({}, map[], players, 0, false))
  {
    assert TotalBoxes(rows, cols) >= 1;
  }

  // ---------- the winner ----------

  /** The first player from `best` on with the highest score among
      `ps[best]` and `ps[i..]`. */
  function Leader(ps: seq<Player>, i: nat, best: nat): (w: nat)
    requires best < i <= |ps|
    requires forall j | 0 <= j < i :: ps[j].score <= ps[best].score
    requires forall j | 0 <= j < best :: ps[j].score < ps[best].score
    ensures w < |ps|
    ensures forall j | 0 <= j < |ps| :: ps[j].score <= ps[w].score
    ensures forall j | 0 <= j < w :: ps[j].score < ps[w].score
    decreases |ps| - i
  {
    if i == |ps| then best
    else if ps[i].score > ps[best].score then Leader(ps, i + 1, i)
    else Leader(ps, i + 1, best)
  }

  /** The player shown as the winner: the roster sorted by descending score
      with a stable sort, first entry. That is the earliest player in the
      roster with the highest score; there is none for an empty roster. */
  function Winner(ps: seq<Player>): (w: Option<nat>)
    ensures w.None? <==> ps == []
    ensures w.Some? ==> w.value < |ps|
    ensures w.Some? ==> forall j | 0 <= j < |ps| :: ps[j].score <= ps[w.value].score
    ensures w.Some? ==> forall j | 0 <= j < w.value :: ps[j].score < ps[w.value].score
  {
    if ps == [] then None else Some(Leader(ps, 1, 0))
  }

  // ---------- the match ----------

  /** A match in play. The fields are the game's state; `Valid` is the
      invariant and every method states its effect through `State`. */
  class Match {
    const rows: int
    const cols: int
    const difficulty: Difficulty
    var players: seq<Player>
    var turn: nat
    var lines: set<Line>
    var boxes: map<Box, Owner>
    var gameOver: bool

    function Snapshot(): State
      reads this
    {
      State(lines, boxes, players, turn, gameOver)
    }

    ghost predicate Valid()
      reads this
    {
      Inv(rows, cols, Snapshot())
    }

    /** Starts a match on a `rows` x `cols` grid of dots with the given
        humans, then `numComputers` computer players, playing at `difficulty`. */
    constructor StartGame(rows: int, cols: int, humans: seq<HumanInput>, numComputers: nat, difficulty: Difficulty)
      requires rows >= 2 && cols >= 2
      requires 1 <= |humans| <= 6
      ensures Valid()
      ensures this.rows == rows && this.cols == cols && this.difficulty == difficulty
      ensures lines == {} && boxes == map[] && turn == 0 && !gameOver
      ensures |players| == |humans| + numComputers
      ensures forall i | 0 <= i < |humans| :: IsHuman(players[i], i, i, humans[i], |players|)
      ensures forall i | |humans| <= i < |players| :: IsComputer(players[i], i, i - |humans|, |players|)
      ensures forall i | 0 <= i < |players| ::
                players[i].id == i && players[i].score == 0 && (players[i].isComputer <==> i >= |humans|)
    {
      this.rows := rows;
      this.cols := cols;
      this.difficulty := difficulty;
      var allPlayers := BuildRoster(humans, numComputers);
      players := allPlayers;
      turn := 0;
      lines := {};
      boxes := map[];
      gameOver := false;
      StartKeepsInv(rows, cols, allPlayers);
    }

    /** Adds `l` to the drawn lines and runs the capture scan for the
        player whose turn it is. */
    method Commit(l: Line)
      requires Valid() && !gameOver
      modifies this
      ensures Valid()
      ensures Snapshot() == Draw(rows, cols, old(Snapshot()), l)
    {
      ghost var s := Snapshot();
      var t := Move(rows, cols, Snapshot(), l);
      DrawKeepsInv(rows, cols, s, l);
      lines, boxes, players, turn, gameOver := t.lines, t.boxes, t.players, t.turn, t.gameOver;
      assert Snapshot() == t;
    }

    /** A click on line `l`, from any player. */
    method HandleLineClick(l: Line)
      requires Valid()
      modifies this
      ensures Valid()
      ensures Snapshot() == Click(rows, cols, old(Snapshot()), l)
    {
      if gameOver {
        return;
      }
      if l in lines {
        return;
      }
      Commit(l);
    }

    /** The computer player's move. It is made only when the game is not over
        and the player to move is a computer; the line drawn is one of the
        candidates of the match's difficulty and `roll` stands for the
        random number that picks it. */
    method MakeComputerMove(roll: nat) returns (chosen: Option<Line>)
      requires Valid()
      modifies this
      ensures Valid()
      ensures chosen.Some? <==> !old(gameOver) && old(players)[old(turn)].isComputer
      ensures chosen.None? ==> Snapshot() == old(Snapshot())
      ensures chosen.Some? ==>
                && Candidate(difficulty, rows, cols, old(lines), old(boxes).Keys, chosen.value)
                && Snapshot() == Draw(rows, cols, old(Snapshot()), chosen.value)
    {
      if gameOver {
        return None;
      }
      var currentPlayer := players[turn];
      if !currentPlayer.isComputer {
        return None;
      }
      NotOverHasMove(rows, cols, Snapshot());
      var pool;
      pool, chosen := ChooseLine(difficulty, rows, cols, lines, boxes.Keys, roll);
      if chosen.None? {
        return;
      }
      assert chosen.value in pool;
      Commit(chosen.value);
    }
  }
}
