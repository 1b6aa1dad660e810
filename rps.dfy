/** Stone-Paper-Scissors against the computer: the table of moves, the
    outcome of a round, the scoreboard, and the two phases of a round (the
    shake, then the reveal when the timer fires). */
module StonePaperScissors {
  import opened Wrappers

  /** A move and the move it beats. */
  datatype Choice = Choice(name: string, beats: string)

  const Choices: seq<Choice> := [
    Choice("Stone", "Scissors"),
    Choice("Paper", "Stone"),
    Choice("Scissors", "Paper")
  ]

  /** Move `i` of the table beats move `j`. */
  predicate Beats(i: nat, j: nat)
    requires i < 3 && j < 3
  {
    Choices[i].beats == Choices[j].name
  }

  /** The three names are distinct. */
  lemma NamesDistinct()
    ensures forall i, j | 0 <= i < 3 && 0 <= j < 3 :: Choices[i].name == Choices[j].name <==> i == j
  {
    assert Choices[0].name[0] == 'S' && Choices[1].name[0] == 'P' && Choices[2].name[0] == 'S';
    assert Choices[0].name[1] == 't' && Choices[2].name[1] == 'c';
  }

  /** `beats` is the cycle Stone, Scissors, Paper: each move beats exactly
      the move two places on (mod 3), is beaten exactly by the move one place
      on, and never beats itself. */
  lemma BeatsIsCycle()
    ensures forall i, j | 0 <= i < 3 && 0 <= j < 3 :: Beats(i, j) <==> j == (i + 2) % 3
    ensures forall i, j | 0 <= i < 3 && 0 <= j < 3 :: Beats(j, i) <==> j == (i + 1) % 3
    ensures forall i | 0 <= i < 3 :: !Beats(i, i)
  {
    NamesDistinct();
    assert Choices[0].beats == Choices[2].name;
    assert Choices[1].beats == Choices[0].name;
    assert Choices[2].beats == Choices[1].name;
  }

  datatype Outcome = Tie | PlayerWins | ComputerWins

  /** The outcome of a round: a tie when the names agree, a win for the
      player when the player's move beats the computer's, and otherwise a win
      for the computer. */
  function Resolve(player: Choice, computer: Choice): Outcome {
    if player.name == computer.name then Tie
    else if player.beats == computer.name then PlayerWins
    else ComputerWins
  }

  /** On the table's moves: a tie is the same move twice, the player wins
      exactly when the player's move is the one that beats the computer's
      move round the cycle, and the computer wins exactly in the opposite
      case; so exactly one of the three holds. */
  lemma ResolveByCycle(i: nat, j: nat)
    requires i < 3 && j < 3
    ensures Resolve(Choices[i], Choices[j]) == Tie <==> i == j
    ensures Resolve(Choices[i], Choices[j]) == PlayerWins <==> Beats(i, j)
    ensures Resolve(Choices[i], Choices[j]) == ComputerWins <==> Beats(j, i)
  {
    BeatsIsCycle();
  }

  /** Between two moves of the table, swapping the sides swaps the winner. */
  lemma ResolveAntisymmetric(i: nat, j: nat)
    requires i < 3 && j < 3
    ensures Resolve(Choices[i], Choices[j]) == PlayerWins <==> Resolve(Choices[j], Choices[i]) == ComputerWins
    ensures Resolve(Choices[i], Choices[j]) == Tie <==> Resolve(Choices[j], Choices[i]) == Tie
  {
    BeatsIsCycle();
  }

  datatype Scores = Scores(player: nat, computer: nat)

  /** The scoreboard after a round. */
  function Score(s: Scores, o: Outcome): Scores {
    match o
    case Tie => s
    case PlayerWins => s.(player := s.player + 1)
    case ComputerWins => s.(computer := s.computer + 1)
  }

  /** A round's winner gains one point and nobody else gains anything. */
  lemma ScoreOnePoint(s: Scores, o: Outcome)
    ensures var t := Score(s, o);
            && t.player == s.player + (if o == PlayerWins then 1 else 0)
            && t.computer == s.computer + (if o == ComputerWins then 1 else 0)
            && t.player + t.computer == s.player + s.computer + (if o == Tie then 0 else 1)
  {
  }

  /** The banner under the hands. */
  datatype Banner = ChooseYourMove | WaitForIt | ItsATie | YouWin | ComputerWinsBanner

  function BannerFor(o: Outcome): Banner {
    match o
    case Tie => ItsATie
    case PlayerWins => YouWin
    case ComputerWins => ComputerWinsBanner
  }

  /** The entry of the table with the given name. */
  function Find(name: string): (c: Option<Choice>)
    ensures c.Some? <==> exists i | 0 <= i < 3 :: Choices[i].name == name
    ensures c.Some? ==> c.value in Choices && c.value.name == name
  {
    if Choices[0].name == name then Some(Choices[0])
    else if Choices[1].name == name then Some(Choices[1])
    else if Choices[2].name == name then Some(Choices[2])
    else None
  }

  /** The page's state; `pending` is the move whose reveal the running timer
      will perform. */
  class Game {
    var playerChoice: Option<Choice>
    var computerChoice: Option<Choice>
    var result: Banner
    var isShaking: bool
    var scores: Scores
    var pending: Option<string>

    /** The hands shake exactly while a reveal is pending, and a pending move
        is a move of the table. */
    ghost predicate Valid()
      reads this
    {
      (isShaking <==> pending.Some?) && (pending.Some? ==> Find(pending.value).Some?)
    }

    constructor ()
      ensures Valid()
      ensures playerChoice == None && computerChoice == None && result == ChooseYourMove
      ensures !isShaking && scores == Scores(0, 0) && pending == None
    {
      playerChoice := None;
      computerChoice := None;
      result := ChooseYourMove;
      isShaking := false;
      scores := Scores(0, 0);
      pending := None;
    }

    /** The player picks `choice`: ignored while the hands are shaking;
        otherwise the hands start shaking, the choices are cleared and the
        reveal is scheduled. */
    method PlayGame(choice: string)
      requires Valid() && Find(choice).Some?
      modifies this
      ensures Valid()
      ensures scores == old(scores)
      ensures old(isShaking) ==>
                && playerChoice == old(playerChoice) && computerChoice == old(computerChoice)
                && result == old(result) && isShaking && pending == old(pending)
      ensures !old(isShaking) ==>
                && playerChoice == None && computerChoice == None
                && result == WaitForIt && isShaking && pending == Some(choice)
    {
      if isShaking {
        return;
      }
      isShaking := true;
      result := WaitForIt;
      playerChoice := None;
      computerChoice := None;
      pending := Some(choice);
    }

    /** The timer fires: `roll` (0, 1 or 2) stands for the random pick of the
        computer's move; both moves are shown, the shaking stops, and the
        banner and the scoreboard show the outcome. */
    method Reveal(roll: nat)
      requires Valid() && pending.Some? && roll < 3
      modifies this
      ensures Valid()
      ensures var player := Find(old(pending).value).value;
              var outcome := Resolve(player, Choices[roll]);
              && playerChoice == Some(player) && computerChoice == Some(Choices[roll])
              && !isShaking && pending == None
              && result == BannerFor(outcome)
              && scores == Score(old(scores), outcome)
    {
      var computerMove := Choices[roll];
      var playerMove := Find(pending.value).value;
      playerChoice := Some(playerMove);
      computerChoice := Some(computerMove);
      isShaking := false;
      pending := None;
      if playerMove.name == computerMove.name {
        result := ItsATie;
      } else if playerMove.beats == computerMove.name {
        result := YouWin;
        scores := scores.(player := scores.player + 1);
      } else {
        result := ComputerWinsBanner;
        scores := scores.(computer := scores.computer + 1);
      }
    }

    /** Both scores back to 0; nothing else changes. */
    method ResetScore()
      requires Valid()
      modifies this
      ensures Valid()
      ensures scores == Scores(0, 0)
      ensures playerChoice == old(playerChoice) && computerChoice == old(computerChoice)
      ensures result == old(result) && isShaking == old(isShaking) && pending == old(pending)
    {
      scores := Scores(0, 0);
    }
  }
}
