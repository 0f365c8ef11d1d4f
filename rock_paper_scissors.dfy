/** lab2.js: three rounds of rock, paper, scissors against a random computer player. The prompt,
    the console and `Math.random` become parameters: each round gets the text the user typed
    (already accepted by the prompt's `conform` check) and the random number drawn. */
module RockPaperScissors {
  import opened Text

  datatype Move = Rock | Paper | Scissors

  function MoveName(m: Move): string {
    match m
    case Rock => "rock"
    case Paper => "paper"
    case Scissors => "scissors"
  }

  /** The one-letter abbreviation the prompt accepts for a move. */
  function Initial(m: Move): char {
    match m
    case Rock => 'r'
    case Paper => 'p'
    case Scissors => 's'
  }

  /** The accepted answers: the three names and their initials. */
  const Choices: seq<string> := ["rock", "paper", "scissors", "r", "p", "s"]

  /** The schema's `conform`: the answer, lower-cased, is one of the choices. */
  predicate Conform(value: string) {
    Lower(value) in Choices
  }

  /** The chain `.toLowerCase().replace("r", "rock").replace("p", "paper").replace("s",
      "scissors")`, each `replace` acting on the first occurrence in the text so far. */
  function NormaliseAsWritten(choice: string): string {
    ReplaceFirst(ReplaceFirst(ReplaceFirst(Lower(choice), 'r', "rock"), 'p', "paper"), 's', "scissors")
  }

  /** Text without capitals is its own lower-case form. */
  lemma LowerOfLowerCase(s: string)
    requires forall i :: 0 <= i < |s| ==> !('A' <= s[i] <= 'Z')
    ensures Lower(s) == s
  {
  }

  /** The three replacements one after the other, on text that is already lower-case. */
  lemma NormaliseAsWrittenSteps(s: string, afterR: string, afterP: string, afterS: string)
    requires Lower(s) == s
    requires ReplaceFirst(s, 'r', "rock") == afterR
    requires ReplaceFirst(afterR, 'p', "paper") == afterP
    requires ReplaceFirst(afterP, 's', "scissors") == afterS
    ensures NormaliseAsWritten(s) == afterS
  {
  }

  /** The chain expands an initial as intended. */
  lemma NormaliseAsWrittenOnR()
    ensures NormaliseAsWritten("r") == "rock"
  {
    LowerOfLowerCase("r");
    ReplaceAbsent("rock", 'p', "paper");
    ReplaceAbsent("rock", 's', "scissors");
    NormaliseAsWrittenSteps("r", "rock", "rock", "rock");
  }

  lemma NormaliseAsWrittenOnP()
    ensures NormaliseAsWritten("p") == "paper"
  {
    LowerOfLowerCase("p");
    ReplaceAbsent("p", 'r', "rock");
    ReplaceAbsent("paper", 's', "scissors");
    NormaliseAsWrittenSteps("p", "p", "paper", "paper");
  }

  lemma NormaliseAsWrittenOnS()
    ensures NormaliseAsWritten("s") == "scissors"
  {
    LowerOfLowerCase("s");
    ReplaceAbsent("s", 'r', "rock");
    ReplaceAbsent("s", 'p', "paper");
    NormaliseAsWrittenSteps("s", "s", "s", "scissors");
  }

  /** But it also rewrites a full name: the first 'r', then the first 'p', then the first 's' of
      the text so far are each replaced. */
  lemma NormaliseAsWrittenOnRock()
    ensures NormaliseAsWritten("rock") == "rockock"
  {
    LowerOfLowerCase("rock");
    RockFirstStep();
    RockLaterSteps();
    NormaliseAsWrittenSteps("rock", "rockock", "rockock", "rockock");
  }

  lemma RockFirstStep()
    ensures ReplaceFirst("rock", 'r', "rock") == "rockock"
  {
    ReplaceAfter("", 'r', "ock", "rock");
    assert "" + ['r'] + "ock" == "rock" && "" + "rock" + "ock" == "rockock";
  }

  lemma RockLaterSteps()
    ensures ReplaceFirst("rockock", 'p', "paper") == "rockock"
    ensures ReplaceFirst("rockock", 's', "scissors") == "rockock"
  {
    ReplaceAbsent("rockock", 'p', "paper");
    ReplaceAbsent("rockock", 's', "scissors");
  }

  lemma PaperLastStep()
    ensures ReplaceFirst("paperaperock", 's', "scissors") == "paperaperock"
  {
    ReplaceAbsent("paperaperock", 's', "scissors");
  }

  lemma ScissorsMiddleStep()
    ensures ReplaceFirst("scissorocks", 'p', "paper") == "scissorocks"
  {
    ReplaceAbsent("scissorocks", 'p', "paper");
  }

  lemma PaperFirstStep()
    ensures ReplaceFirst("paper", 'r', "rock") == "paperock"
  {
    ReplaceAfter("pape", 'r', "", "rock");
    assert "pape" + ['r'] + "" == "paper" && "pape" + "rock" + "" == "paperock";
  }

  lemma PaperSecondStep()
    ensures ReplaceFirst("paperock", 'p', "paper") == "paperaperock"
  {
    ReplaceAfter("", 'p', "aperock", "paper");
    assert "" + ['p'] + "aperock" == "paperock" && "" + "paper" + "aperock" == "paperaperock";
  }

  lemma NormaliseAsWrittenOnPaper()
    ensures NormaliseAsWritten("paper") == "paperaperock"
  {
    LowerOfLowerCase("paper");
    PaperFirstStep();
    PaperSecondStep();
    PaperLastStep();
    NormaliseAsWrittenSteps("paper", "paperock", "paperaperock", "paperaperock");
  }

  lemma ScissorsFirstStep()
    ensures ReplaceFirst("scissors", 'r', "rock") == "scissorocks"
  {
    ReplaceAfter("scisso", 'r', "s", "rock");
    assert "scisso" + ['r'] + "s" == "scissors" && "scisso" + "rock" + "s" == "scissorocks";
  }

  lemma ScissorsLastStep()
    ensures ReplaceFirst("scissorocks", 's', "scissors") == "scissorscissorocks"
  {
    ReplaceAfter("", 's', "cissorocks", "scissors");
    assert "" + ['s'] + "cissorocks" == "scissorocks" && "" + "scissors" + "cissorocks" == "scissorscissorocks";
  }

  lemma NormaliseAsWrittenOnScissors()
    ensures NormaliseAsWritten("scissors") == "scissorscissorocks"
  {
    LowerOfLowerCase("scissors");
    ScissorsFirstStep();
    ScissorsMiddleStep();
    ScissorsLastStep();
    NormaliseAsWrittenSteps("scissors", "scissorocks", "scissorocks", "scissorscissorocks");
  }

  /** No full name comes out of the chain as a move name. */
  lemma NormaliseAsWrittenBreaksNames(m: Move)
    ensures forall n: Move :: NormaliseAsWritten(MoveName(m)) != MoveName(n)
  {
    NormalisedNameLength(m);
    forall n: Move
      ensures NormaliseAsWritten(MoveName(m)) != MoveName(n)
    {
      NameLength(n);
      assert |NormaliseAsWritten(MoveName(m))| != |MoveName(n)|;
    }
  }

  lemma NameLength(n: Move)
    ensures var k := |MoveName(n)|; k == 4 || k == 5 || k == 8
  {
  }

  /** The lengths the full names come out of the replacements with: 7, 12 and 18 characters,
      where the names themselves have 4, 5 and 8. */
  lemma NormalisedNameLength(m: Move)
    ensures var k := |NormaliseAsWritten(MoveName(m))|; k == 7 || k == 12 || k == 18
  {
    match m
    case Rock =>
      NormaliseAsWrittenOnRock();
      assert MoveName(m) == "rock" && |"rockock"| == 7;
    case Paper =>
      NormaliseAsWrittenOnPaper();
      assert MoveName(m) == "paper" && |"paperaperock"| == 12;
    case Scissors =>
      NormaliseAsWrittenOnScissors();
      assert MoveName(m) == "scissors" && |"scissorscissorocks"| == 18;
  }

  /** What the chain evidently means: an initial stands for its move, a name for itself. */
  function Normalise(choice: string): (m: Move)
    requires Conform(choice)
    ensures Lower(choice) == MoveName(m) || Lower(choice) == [Initial(m)]
  {
    var c := Lower(choice);
    if c == "rock" || c == "r" then Rock
    else if c == "paper" || c == "p" then Paper
    else Scissors
  }

  /** The corrected normalisation reads a move's full name as that move. */
  lemma NormaliseOnName(m: Move)
    ensures Conform(MoveName(m))
    ensures Normalise(MoveName(m)) == m
  {
    LowerOfLowerCase(MoveName(m));
  }

  /** On the one-letter answers the chain and the corrected normaliser agree. */
  lemma NormaliseAgreesOnInitials(m: Move)
    ensures Conform([Initial(m)])
    ensures NormaliseAsWritten([Initial(m)]) == MoveName(Normalise([Initial(m)]))
    ensures Normalise([Initial(m)]) == m
  {
    LowerOfLowerCase([Initial(m)]);
    match m
    case Rock => NormaliseAsWrittenOnR();
    case Paper => NormaliseAsWrittenOnP();
    case Scissors => NormaliseAsWrittenOnS();
  }

  /** `getComputerChoice`: paper up to 0.34, scissors up to 0.67, rock above. */
  function ComputerChoice(randomNumber: real): (m: Move)
    ensures m == Paper <==> randomNumber <= 0.34
    ensures m == Scissors <==> 0.34 < randomNumber <= 0.67
    ensures m == Rock <==> 0.67 < randomNumber
  {
    if randomNumber <= 0.34 then Paper
    else if randomNumber <= 0.67 then Scissors
    else Rock
  }

  /** The three results `determineWinner` returns. */
  datatype Outcome = Tie | UserWins | ComputerWins

  function OutcomeText(o: Outcome): string {
    match o
    case Tie => "It's a tie!"
    case UserWins => "User wins!"
    case ComputerWins => "Computer wins!"
  }

  /** `determineWinner` on the two texts: a tie when they are equal, the user's win for the three
      winning pairs, otherwise the computer's. */
  function DetermineWinner(userChoice: string, computerChoice: string): (o: Outcome)
    ensures o == Tie <==> userChoice == computerChoice
    ensures o == UserWins ==> userChoice in ["rock", "paper", "scissors"] && computerChoice in ["rock", "paper", "scissors"]
  {
    if userChoice == computerChoice then Tie
    else if || (userChoice == "rock" && computerChoice == "scissors")
            || (userChoice == "paper" && computerChoice == "rock")
            || (userChoice == "scissors" && computerChoice == "paper")
    then UserWins
    else ComputerWins
  }

  /** The rules as a cycle: a move beats the one before it in rock, paper, scissors. */
  predicate Beats(a: Move, b: Move) {
    (Rank(a) - Rank(b)) % 3 == 1
  }

  function Rank(m: Move): int {
    match m
    case Rock => 0
    case Paper => 1
    case Scissors => 2
  }

  /** On two moves `determineWinner` follows the cycle. */
  lemma DetermineWinnerFollowsRules(user: Move, computer: Move)
    ensures DetermineWinner(MoveName(user), MoveName(computer))
            == if user == computer then Tie else if Beats(user, computer) then UserWins else ComputerWins
  {
  }

  /** Of two different moves exactly one beats the other, so swapping the players swaps the winner. */
  lemma SwapPlayersSwapsWinner(a: Move, b: Move)
    requires a != b
    ensures Beats(a, b) != Beats(b, a)
    ensures DetermineWinner(MoveName(a), MoveName(b)) == UserWins
            <==> DetermineWinner(MoveName(b), MoveName(a)) == ComputerWins
  {
    DetermineWinnerFollowsRules(a, b);
    DetermineWinnerFollowsRules(b, a);
  }

  /** Any text that is not a move name loses to every computer move. */
  lemma NonMoveLoses(userChoice: string, computer: Move)
    requires forall m: Move :: userChoice != MoveName(m)
    ensures DetermineWinner(userChoice, MoveName(computer)) == ComputerWins
  {
    assert userChoice != MoveName(Rock) && userChoice != MoveName(Paper) && userChoice != MoveName(Scissors);
  }

  /** `playGame` as written: the chain's text against the computer's move. */
  function PlayGameAsWritten(choice: string, randomNumber: real): Outcome {
    DetermineWinner(NormaliseAsWritten(choice), MoveName(ComputerChoice(randomNumber)))
  }

  /** As written, answering with a full name always loses, whatever the computer draws. */
  lemma FullNameAlwaysLoses(m: Move, randomNumber: real)
    ensures PlayGameAsWritten(MoveName(m), randomNumber) == ComputerWins
  {
    NormaliseAsWrittenBreaksNames(m);
    NonMoveLoses(NormaliseAsWritten(MoveName(m)), ComputerChoice(randomNumber));
  }

  /** `playGame` with the corrected normaliser. */
  function PlayGame(choice: string, randomNumber: real): (o: Outcome)
    requires Conform(choice)
    ensures o == Tie <==> Normalise(choice) == ComputerChoice(randomNumber)
    ensures o == UserWins <==> Beats(Normalise(choice), ComputerChoice(randomNumber))
  {
    DetermineWinnerFollowsRules(Normalise(choice), ComputerChoice(randomNumber));
    DetermineWinner(MoveName(Normalise(choice)), MoveName(ComputerChoice(randomNumber)))
  }

  /** A full name and its initial now play the same. */
  lemma NameAndInitialPlayAlike(m: Move, randomNumber: real)
    ensures Conform(MoveName(m)) && Conform([Initial(m)])
    ensures PlayGame(MoveName(m), randomNumber) == PlayGame([Initial(m)], randomNumber)
  {
    NormaliseAgreesOnInitials(m);
    NormaliseOnName(m);
  }

  const Rounds: nat := 3

  /** The outcomes of the rounds, one per answer and random number. */
  function RoundOutcomes(choices: seq<string>, randomNumbers: seq<real>): seq<Outcome>
    requires |choices| == |randomNumbers|
    requires forall i :: 0 <= i < |choices| ==> Conform(choices[i])
  {
    seq(|choices|, i requires 0 <= i < |choices| => PlayGame(choices[i], randomNumbers[i]))
  }

  function Count(os: seq<Outcome>, o: Outcome): nat {
    if os == [] then 0 else (if os[|os| - 1] == o then 1 else 0) + Count(os[..|os| - 1], o)
  }

  /** Every round is exactly one of a tie, a user win or a computer win. */
  lemma {:induction false} CountsAddUp(os: seq<Outcome>)
    ensures Count(os, Tie) + Count(os, UserWins) + Count(os, ComputerWins) == |os|
  {
    if os != [] {
      CountsAddUp(os[..|os| - 1]);
    }
  }

  /** The overall result `playThreeRounds` announces. */
  datatype Verdict = UserWinsGame(userWins: nat) | ComputerWinsGame(computerWins: nat) | GameTie

  function VerdictOf(userWins: nat, computerWins: nat): (v: Verdict)
    ensures v.UserWinsGame? <==> userWins > computerWins
    ensures v.ComputerWinsGame? <==> computerWins > userWins
    ensures v.UserWinsGame? ==> v.userWins == userWins
    ensures v.ComputerWinsGame? ==> v.computerWins == computerWins
  {
    if userWins > computerWins then UserWinsGame(userWins)
    else if computerWins > userWins then ComputerWinsGame(computerWins)
    else GameTie
  }

  /** `playThreeRounds`: play the rounds, count each side's wins, compare. */
  method PlayThreeRounds(choices: seq<string>, randomNumbers: seq<real>)
    returns (userWins: nat, computerWins: nat, verdict: Verdict)
    requires |choices| == Rounds && |randomNumbers| == Rounds
    requires forall i :: 0 <= i < Rounds ==> Conform(choices[i])
    ensures userWins == Count(RoundOutcomes(choices, randomNumbers), UserWins)
    ensures computerWins == Count(RoundOutcomes(choices, randomNumbers), ComputerWins)
    ensures userWins + computerWins <= Rounds
    ensures verdict == VerdictOf(userWins, computerWins)
  {
    ghost var os := RoundOutcomes(choices, randomNumbers);
    userWins, computerWins := 0, 0;
    for i := 0 to Rounds
      invariant userWins == Count(os[..i], UserWins)
      invariant computerWins == Count(os[..i], ComputerWins)
    {
      var result := PlayGame(choices[i], randomNumbers[i]);
      assert os[..i + 1][..i] == os[..i];
      if result == UserWins {
        userWins := userWins + 1;
      } else if result == ComputerWins {
        computerWins := computerWins + 1;
      }
    }
    assert os[..Rounds] == os;
    CountsAddUp(os);
    verdict := VerdictOf(userWins, computerWins);
  }

  /** With an odd number of rounds and no tied round, the game always has a winner. */
  lemma NoTiedRoundMeansWinner(os: seq<Outcome>)
    requires |os| == Rounds && Count(os, Tie) == 0
    ensures !VerdictOf(Count(os, UserWins), Count(os, ComputerWins)).GameTie?
  {
    CountsAddUp(os);
    assert Count(os, UserWins) + Count(os, ComputerWins) == 3;
  }
}
