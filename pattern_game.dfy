/**
 * The Simon-style memory game of `Scripts/pattern-game.js`: the game replays a growing
 * sequence of colours and the player repeats it. Timer callbacks are separate methods
 * that may run at any time, so every invariant below holds whatever order they fire in.
 */
module PatternGame {
  import opened Wrappers
  import JsText

  datatype Color = Red | Green | Blue | Yellow

  datatype GameState = Menu | Playing | Paused | GameOver

  datatype Difficulty = Easy | Medium | Hard | Expert

  /** The score from which each difficulty applies. */
  function Threshold(d: Difficulty): nat {
    match d
    case Easy => 0
    case Medium => 5
    case Hard => 10
    case Expert => 15
  }

  function Rank(d: Difficulty): nat {
    match d
    case Easy => 0
    case Medium => 1
    case Hard => 2
    case Expert => 3
  }

  /** `updateDifficulty`'s choice: the highest level whose threshold the score has reached. */
  function DifficultyFor(score: int): (d: Difficulty)
  {
    if score >= Threshold(Expert) then Expert
    else if score >= Threshold(Hard) then Hard
    else if score >= Threshold(Medium) then Medium
    else Easy
  }

  /** The chosen level's threshold has been reached, and no harder level's has. */
  lemma DifficultyReached(score: int)
    ensures score >= 0 ==> Threshold(DifficultyFor(score)) <= score
    ensures forall e :: Rank(e) > Rank(DifficultyFor(score)) ==> score < Threshold(e)
  {
  }

  /** A higher score never gives an easier level. */
  lemma DifficultyMonotone(s: int, t: int)
    requires s <= t
    ensures Rank(DifficultyFor(s)) <= Rank(DifficultyFor(t))
  {
  }

  /** Each level is chosen exactly on its own band of scores. */
  lemma DifficultyBands(score: nat, d: Difficulty)
    ensures DifficultyFor(score) == d <==>
      Threshold(d) <= score && forall e :: Rank(e) == Rank(d) + 1 ==> score < Threshold(e)
  {
    if Threshold(d) <= score && forall e :: Rank(e) == Rank(d) + 1 ==> score < Threshold(e) {
      match d
      case Easy => assert score < Threshold(Medium);
      case Medium => assert score < Threshold(Hard);
      case Hard => assert score < Threshold(Expert);
      case Expert =>
    }
  }

  /** The keyboard shortcuts of `handleKeyPress`. */
  function KeyColor(key: string): (r: Option<Color>)
  {
    if key == "1" then Some(Red)
    else if key == "2" then Some(Blue)
    else if key == "3" then Some(Yellow)
    else if key == "4" then Some(Green)
    else None
  }

  /** Every colour has exactly one key, and different keys give different colours. */
  lemma KeyColorBijective(c: Color)
    ensures exists key :: KeyColor(key) == Some(c)
    ensures forall k1, k2 :: KeyColor(k1) == Some(c) && KeyColor(k2) == Some(c) ==> k1 == k2
  {
    match c
    case Red => assert KeyColor("1") == Some(Red);
    case Blue => assert KeyColor("2") == Some(Blue);
    case Yellow => assert KeyColor("3") == Some(Yellow);
    case Green => assert KeyColor("4") == Some(Green);
  }

  /** `p` is a proper prefix of `s`: the player has more of the sequence left to enter. */
  predicate IsStrictPrefix(p: seq<Color>, s: seq<Color>) {
    |p| < |s| && p == s[..|p|]
  }

  /** A leaderboard record; the date and time are the locale strings of the moment of saving. */
  datatype Entry = Entry(score: int, date: string, time: string)

  predicate SortedByScore(board: seq<Entry>) {
    forall i, j :: 0 <= i < j < |board| ==> board[i].score >= board[j].score
  }

  /** How many leading entries have a score of at least `v`. */
  function AtLeastPrefix(board: seq<Entry>, v: int): (k: nat)
    ensures k <= |board|
    ensures forall i :: 0 <= i < k ==> board[i].score >= v
    ensures k < |board| ==> board[k].score < v
  {
    if board == [] || board[0].score < v then 0 else 1 + AtLeastPrefix(board[1..], v)
  }

  /** `e` placed after every leading entry scoring at least as much. */
  function Insert(e: Entry, board: seq<Entry>): (r: seq<Entry>)
  {
    if board == [] then [e]
    else if board[0].score >= e.score then [board[0]] + Insert(e, board[1..])
    else [e] + board
  }

  /**
   * The stable sort `leaderboard.sort((a, b) => b.score - a.score)`: non-increasing scores,
   * entries with equal scores in their original order.
   */
  function SortByScore(board: seq<Entry>): seq<Entry>
  {
    if board == [] then [] else Insert(board[|board| - 1], SortByScore(board[..|board| - 1]))
  }

  /** `slice(0, 5)`. */
  function Top5(board: seq<Entry>): (r: seq<Entry>)
  {
    if |board| <= 5 then board else board[..5]
  }

  /** The board `saveScoreToLeaderboard` stores: the new entry pushed, sorted, the first five kept. */
  function SavedBoard(board: seq<Entry>, e: Entry): seq<Entry>
  {
    Top5(SortByScore(board + [e]))
  }

  /** Insertion lands exactly after the leading entries that score at least as much. */
  lemma {:induction false} InsertPosition(e: Entry, board: seq<Entry>)
    ensures var k := AtLeastPrefix(board, e.score);
      Insert(e, board) == board[..k] + [e] + board[k..]
  {
    if board != [] && board[0].score >= e.score {
      InsertPosition(e, board[1..]);
      var k := AtLeastPrefix(board[1..], e.score);
      assert board[..k + 1] == [board[0]] + board[1..][..k];
      assert board[k + 1..] == board[1..][k..];
    }
  }

  lemma InsertSorted(e: Entry, board: seq<Entry>)
    requires SortedByScore(board)
    ensures SortedByScore(Insert(e, board))
    ensures multiset(Insert(e, board)) == multiset(board) + multiset{e}
  {
    InsertPosition(e, board);
    var k := AtLeastPrefix(board, e.score);
    SpliceSorted(board, k, e);
    SpliceMultiset(board, k, e);
  }

  lemma SpliceSorted(board: seq<Entry>, k: nat, e: Entry)
    requires SortedByScore(board) && k <= |board|
    requires forall i :: 0 <= i < k ==> board[i].score >= e.score
    requires k < |board| ==> board[k].score < e.score
    ensures SortedByScore(board[..k] + [e] + board[k..])
  {
    var r := board[..k] + [e] + board[k..];
    forall i, j | 0 <= i < j < |r| ensures r[i].score >= r[j].score {
      if j < k {
        assert r[i] == board[i] && r[j] == board[j];
      } else if j == k {
        assert r[i] == board[i] && r[j] == e;
      } else if i == k {
        assert r[i] == e && r[j] == board[j - 1];
        assert board[k].score >= board[j - 1].score;
      } else if i < k {
        assert r[i] == board[i] && r[j] == board[j - 1];
      } else {
        assert r[i] == board[i - 1] && r[j] == board[j - 1];
      }
    }
  }

  lemma SpliceMultiset(board: seq<Entry>, k: nat, e: Entry)
    requires k <= |board|
    ensures multiset(board[..k] + [e] + board[k..]) == multiset(board) + multiset{e}
  {
    assert board == board[..k] + board[k..];
  }

  /** The sort orders by non-increasing score and loses and adds no entry. */
  lemma {:induction false} SortByScoreCorrect(board: seq<Entry>)
    ensures SortedByScore(SortByScore(board))
    ensures multiset(SortByScore(board)) == multiset(board)
  {
    if board != [] {
      var init := board[..|board| - 1];
      SortByScoreCorrect(init);
      InsertSorted(board[|board| - 1], SortByScore(init));
      assert board == init + [board[|board| - 1]];
    }
  }

  /** A board already in order is left as it is by the sort. */
  lemma {:induction false} SortByScoreOfSorted(board: seq<Entry>)
    requires SortedByScore(board)
    ensures SortByScore(board) == board
  {
    if board != [] {
      var init := board[..|board| - 1];
      var last := board[|board| - 1];
      SortByScoreOfSorted(init);
      InsertPosition(last, init);
      assert AtLeastPrefix(init, last.score) == |init|;
      assert init[..|init|] == init && init[|init|..] == [];
      assert board == init + [last];
    }
  }

  /** The entries scoring exactly `v`, in board order. */
  function WithScore(board: seq<Entry>, v: int): seq<Entry>
  {
    if board == [] then []
    else (if board[0].score == v then [board[0]] else []) + WithScore(board[1..], v)
  }

  lemma {:induction false} WithScoreAppend(a: seq<Entry>, b: seq<Entry>, v: int)
    ensures WithScore(a + b, v) == WithScore(a, v) + WithScore(b, v)
  {
    if a != [] {
      assert (a + b)[1..] == a[1..] + b;
      WithScoreAppend(a[1..], b, v);
    } else {
      assert a + b == b;
    }
  }

  lemma {:induction false} WithScoreOfLower(board: seq<Entry>, v: int)
    requires forall i :: 0 <= i < |board| ==> board[i].score < v
    ensures WithScore(board, v) == []
  {
    if board != [] {
      WithScoreOfLower(board[1..], v);
    }
  }

  /** Inserting into an ordered board puts `e` after every entry of its own score. */
  lemma {:induction false} InsertWithScore(e: Entry, board: seq<Entry>, v: int)
    requires SortedByScore(board)
    ensures WithScore(Insert(e, board), v) == WithScore(board, v) + (if e.score == v then [e] else [])
  {
    if board == [] {
      assert Insert(e, board) == [e];
      assert [e][1..] == [];
    } else if board[0].score >= e.score {
      var rest := Insert(e, board[1..]);
      InsertWithScore(e, board[1..], v);
      assert ([board[0]] + rest)[0] == board[0] && ([board[0]] + rest)[1..] == rest;
    } else {
      assert ([e] + board)[0] == e && ([e] + board)[1..] == board;
      if e.score == v {
        WithScoreOfLower(board, v);
      }
    }
  }

  /**
   * The sort is stable: for every score, the entries with that score come out exactly as, and
   * in the order, they went in.
   */
  lemma {:induction false} SortByScoreStable(board: seq<Entry>, v: int)
    ensures WithScore(SortByScore(board), v) == WithScore(board, v)
  {
    if board != [] {
      var init := board[..|board| - 1];
      var last := board[|board| - 1];
      SortByScoreStable(init, v);
      SortByScoreCorrect(init);
      InsertWithScore(last, SortByScore(init), v);
      WithScoreAppend(init, [last], v);
      assert [last][1..] == [];
      assert board == init + [last];
    }
  }

  /**
   * The saved board holds at most five entries, in score order, each from the old board or the
   * new entry; when the old board was in order, the new entry goes in after every entry scoring
   * at least as much, so it stays on the board exactly when fewer than five of those exist.
   */
  lemma SavedBoardProperties(board: seq<Entry>, e: Entry)
    ensures |SavedBoard(board, e)| <= 5
    ensures SortedByScore(SavedBoard(board, e))
    ensures multiset(SavedBoard(board, e)) <= multiset(board) + multiset{e}
    ensures SortedByScore(board) ==>
      var k := AtLeastPrefix(board, e.score);
      SavedBoard(board, e) == Top5(board[..k] + [e] + board[k..])
      && (k < 5 ==> SavedBoard(board, e)[k] == e)
  {
    SortByScoreSnoc(board, e);
    SortByScoreCorrect(board + [e]);
    Top5Properties(SortByScore(board + [e]));
    if SortedByScore(board) {
      SortByScoreOfSorted(board);
      InsertPosition(e, board);
    }
  }

  /** Sorting a board with one more entry inserts that entry into the sorted board. */
  lemma SortByScoreSnoc(board: seq<Entry>, e: Entry)
    ensures SortByScore(board + [e]) == Insert(e, SortByScore(board))
  {
    var all := board + [e];
    assert all[..|all| - 1] == board;
  }

  lemma Top5Properties(board: seq<Entry>)
    ensures |Top5(board)| <= 5
    ensures SortedByScore(board) ==> SortedByScore(Top5(board))
    ensures multiset(Top5(board)) <= multiset(board)
  {
    if |board| > 5 {
      assert board == board[..5] + board[5..];
    }
  }

  /** The high score after `updateHighScore`; a `NaN` high score (`None`) is never replaced. */
  function Raised(highScore: Option<int>, score: int): (r: Option<int>)
    ensures highScore.Some? ==> r == Some(if score > highScore.value then score else highScore.value)
    ensures highScore.None? ==> r == None
  {
    if highScore.Some? && score > highScore.value then Some(score) else highScore
  }

  /** The global state of the game page, with the stored high score and leaderboard. */
  class PatternGame {
    var gameState: GameState
    var sequence: seq<Color>
    var playerSequence: seq<Color>
    var score: int
    var combo: int
    var lives: int
    var acceptingInput: bool
    /** The high score; `None` is the `NaN` that `parseInt` gives for an unreadable stored value. */
    var highScore: Option<int>
    var currentDifficulty: Difficulty
    var peekAvailable: bool
    var slowMoAvailable: bool
    var useSlowMo: bool
    /** The stored `patternGameLeaderboard` list. */
    var leaderboard: seq<Entry>
    /** How often each power-up has taken effect since the game started. */
    ghost var peekUses: nat
    ghost var slowMoUses: nat

    ghost predicate InGame()
      reads this
    {
      gameState == Playing || gameState == Paused
    }

    /**
     * Counters stay in range, the difficulty follows the score, each power-up is spent at most
     * once per game, and during a game the player is always partway through the sequence with
     * a life left.
     */
    ghost predicate Valid()
      reads this
    {
      0 <= lives <= 3 && score >= 0 && combo >= 0
      && currentDifficulty == DifficultyFor(score)
      && peekUses <= 1 && (peekAvailable <==> peekUses == 0)
      && slowMoUses <= 1 && (slowMoAvailable <==> slowMoUses == 0)
      && (InGame() ==> lives >= 1 && IsStrictPrefix(playerSequence, sequence))
    }

    /**
     * The page as loaded: the menu, the initial variables, and `loadHighScore` reading the
     * stored value when there is a non-empty one.
     */
    constructor (savedHighScore: Option<string>, storedBoard: seq<Entry>)
      ensures Valid()
      ensures gameState == Menu && sequence == [] && playerSequence == []
      ensures score == 0 && combo == 0 && lives == 3 && !acceptingInput
      ensures peekAvailable && slowMoAvailable && !useSlowMo
      ensures leaderboard == storedBoard
      ensures highScore == if savedHighScore.Some? && savedHighScore.value != "" then JsText.ParseInt(savedHighScore.value) else Some(0)
      ensures forall h: int :: savedHighScore == Some(JsText.IntToString(h)) ==> highScore == Some(h)
    {
      gameState, sequence, playerSequence := Menu, [], [];
      score, combo, lives, acceptingInput := 0, 0, 3, false;
      currentDifficulty := Easy;
      peekAvailable, slowMoAvailable, useSlowMo := true, true, false;
      leaderboard := storedBoard;
      peekUses, slowMoUses := 0, 0;
      highScore := Some(0);
      if savedHighScore.Some? && savedHighScore.value != "" {
        highScore := JsText.ParseInt(savedHighScore.value);
      }
      new;
      forall h: int | savedHighScore == Some(JsText.IntToString(h)) ensures highScore == Some(h) {
        JsText.ParseIntOfIntToString(h);
      }
    }

    /** `updateDifficulty`. */
    method UpdateDifficulty()
      modifies this
      ensures currentDifficulty == DifficultyFor(score)
      ensures gameState == old(gameState) && sequence == old(sequence) && playerSequence == old(playerSequence)
      ensures score == old(score) && combo == old(combo) && lives == old(lives) && acceptingInput == old(acceptingInput)
      ensures highScore == old(highScore) && leaderboard == old(leaderboard)
      ensures peekAvailable == old(peekAvailable) && slowMoAvailable == old(slowMoAvailable) && useSlowMo == old(useSlowMo)
      ensures peekUses == old(peekUses) && slowMoUses == old(slowMoUses)
    {
      var newDifficulty := Easy;
      if score >= Threshold(Expert) {
        newDifficulty := Expert;
      } else if score >= Threshold(Hard) {
        newDifficulty := Hard;
      } else if score >= Threshold(Medium) {
        newDifficulty := Medium;
      }
      if newDifficulty != currentDifficulty {
        currentDifficulty := newDifficulty;
      }
    }

    /**
     * `playSequence`, up to the point where the replay is scheduled: only while playing, input
     * is shut off and slow motion is spent. The flashes change nothing; the timer after the last
     * one is `InputTimer`.
     */
    method PlaySequence()
      requires Valid()
      modifies this
      ensures Valid()
      ensures old(gameState) == Playing ==> !acceptingInput && !useSlowMo
      ensures old(gameState) != Playing ==> acceptingInput == old(acceptingInput) && useSlowMo == old(useSlowMo)
      ensures gameState == old(gameState) && sequence == old(sequence) && playerSequence == old(playerSequence)
      ensures score == old(score) && combo == old(combo) && lives == old(lives)
      ensures highScore == old(highScore) && leaderboard == old(leaderboard)
      ensures peekAvailable == old(peekAvailable) && slowMoAvailable == old(slowMoAvailable)
      ensures peekUses == old(peekUses) && slowMoUses == old(slowMoUses)
    {
      if gameState != Playing {
        return;
      }
      acceptingInput := false;
      useSlowMo := false;
    }

    /** The timer a replay sets after its last flash: input is accepted again, whatever the state. */
    method InputTimer()
      requires Valid()
      modifies this
      ensures Valid() && acceptingInput
      ensures gameState == old(gameState) && sequence == old(sequence) && playerSequence == old(playerSequence)
      ensures score == old(score) && combo == old(combo) && lives == old(lives)
      ensures highScore == old(highScore) && leaderboard == old(leaderboard)
      ensures peekAvailable == old(peekAvailable) && slowMoAvailable == old(slowMoAvailable) && useSlowMo == old(useSlowMo)
      ensures peekUses == old(peekUses) && slowMoUses == old(slowMoUses)
    {
      acceptingInput := true;
    }

    /** `startGame`, with `first` the colour `addToSequence` picks. */
    method StartGame(first: Color)
      modifies this
      ensures Valid()
      ensures gameState == Playing && sequence == [first] && playerSequence == []
      ensures score == 0 && combo == 0 && lives == 3 && currentDifficulty == Easy
      ensures peekAvailable && slowMoAvailable && !acceptingInput && !useSlowMo
      ensures peekUses == 0 && slowMoUses == 0
      ensures highScore == old(highScore) && leaderboard == old(leaderboard)
    {
      gameState := Playing;
      // The sequence is cleared and `addToSequence` pushes the first colour.
      sequence, playerSequence := [first], [];
      score, combo, lives := 0, 0, 3;
      currentDifficulty := Easy;
      peekAvailable, slowMoAvailable := true, true;
      peekUses, slowMoUses := 0, 0;
      PlaySequence();
    }

    /** `pauseGame`: only a running game pauses. */
    method PauseGame()
      requires Valid()
      modifies this
      ensures Valid()
      ensures old(gameState) == Playing ==> gameState == Paused && !acceptingInput
      ensures old(gameState) != Playing ==> gameState == old(gameState) && acceptingInput == old(acceptingInput)
      ensures sequence == old(sequence) && playerSequence == old(playerSequence)
      ensures score == old(score) && combo == old(combo) && lives == old(lives)
      ensures highScore == old(highScore) && leaderboard == old(leaderboard)
      ensures peekAvailable == old(peekAvailable) && slowMoAvailable == old(slowMoAvailable) && useSlowMo == old(useSlowMo)
      ensures peekUses == old(peekUses) && slowMoUses == old(slowMoUses)
    {
      if gameState != Playing {
        return;
      }
      gameState := Paused;
      acceptingInput := false;
    }

    /** `resumeGame`, reachable only from the pause dialog, which is open only while paused. */
    method ResumeGame()
      requires Valid() && gameState == Paused
      modifies this
      ensures Valid()
      ensures gameState == Playing && acceptingInput
      ensures sequence == old(sequence) && playerSequence == old(playerSequence)
      ensures score == old(score) && combo == old(combo) && lives == old(lives)
      ensures highScore == old(highScore) && leaderboard == old(leaderboard)
      ensures peekAvailable == old(peekAvailable) && slowMoAvailable == old(slowMoAvailable) && useSlowMo == old(useSlowMo)
      ensures peekUses == old(peekUses) && slowMoUses == old(slowMoUses)
    {
      gameState := Playing;
      acceptingInput := true;
    }

    /** `updateHighScore`. */
    method UpdateHighScore()
      modifies this
      ensures highScore == Raised(old(highScore), score)
      ensures gameState == old(gameState) && sequence == old(sequence) && playerSequence == old(playerSequence)
      ensures score == old(score) && combo == old(combo) && lives == old(lives) && acceptingInput == old(acceptingInput)
      ensures currentDifficulty == old(currentDifficulty) && leaderboard == old(leaderboard)
      ensures peekAvailable == old(peekAvailable) && slowMoAvailable == old(slowMoAvailable) && useSlowMo == old(useSlowMo)
      ensures peekUses == old(peekUses) && slowMoUses == old(slowMoUses)
    {
      if highScore.Some? && score > highScore.value {
        highScore := Some(score);
      }
    }

    /** `saveScoreToLeaderboard`, with the locale date and time of the moment as parameters. */
    method SaveScoreToLeaderboard(date: string, time: string)
      modifies this
      ensures leaderboard == SavedBoard(old(leaderboard), Entry(score, date, time))
      ensures |leaderboard| <= 5 && SortedByScore(leaderboard)
      ensures gameState == old(gameState) && sequence == old(sequence) && playerSequence == old(playerSequence)
      ensures score == old(score) && combo == old(combo) && lives == old(lives) && acceptingInput == old(acceptingInput)
      ensures currentDifficulty == old(currentDifficulty) && highScore == old(highScore)
      ensures peekAvailable == old(peekAvailable) && slowMoAvailable == old(slowMoAvailable) && useSlowMo == old(useSlowMo)
      ensures peekUses == old(peekUses) && slowMoUses == old(slowMoUses)
    {
      var board := leaderboard + [Entry(score, date, time)];
      board := SortByScore(board);
      board := Top5(board);
      SavedBoardProperties(leaderboard, Entry(score, date, time));
      leaderboard := board;
    }

    /**
     * `endGame`: the game is over, the high score raised and the score saved. The "new high
     * score" note shows when the score is positive and at least the previous high score, so a
     * tie shows it too.
     */
    method EndGame(date: string, time: string) returns (newHighScore: bool)
      requires Counters()
      modifies this
      ensures Counters()
      ensures gameState == GameOver && !acceptingInput
      ensures highScore == Raised(old(highScore), score)
      ensures leaderboard == SavedBoard(old(leaderboard), Entry(score, date, time))
      ensures newHighScore <==> score > 0 && old(highScore).Some? && score >= old(highScore).value
      ensures sequence == old(sequence) && playerSequence == old(playerSequence)
      ensures score == old(score) && combo == old(combo) && lives == old(lives)
      ensures peekAvailable == old(peekAvailable) && slowMoAvailable == old(slowMoAvailable) && useSlowMo == old(useSlowMo)
      ensures peekUses == old(peekUses) && slowMoUses == old(slowMoUses)
    {
      gameState := GameOver;
      acceptingInput := false;
      UpdateHighScore();
      SaveScoreToLeaderboard(date, time);
      newHighScore := highScore == Some(score) && score > 0;
    }

    /** The parts of `Valid` that hold outside a game as well as in it. */
    ghost predicate Counters()
      reads this
    {
      0 <= lives <= 3 && score >= 0 && combo >= 0
      && currentDifficulty == DifficultyFor(score)
      && peekUses <= 1 && (peekAvailable <==> peekUses == 0)
      && slowMoUses <= 1 && (slowMoAvailable <==> slowMoUses == 0)
    }

    /** `resetToMenu`, the quit button of the pause dialog. */
    method ResetToMenu()
      requires Valid()
      modifies this
      ensures Valid() && gameState == Menu
      ensures sequence == old(sequence) && playerSequence == old(playerSequence)
      ensures score == old(score) && combo == old(combo) && lives == old(lives) && acceptingInput == old(acceptingInput)
      ensures highScore == old(highScore) && leaderboard == old(leaderboard)
      ensures peekAvailable == old(peekAvailable) && slowMoAvailable == old(slowMoAvailable) && useSlowMo == old(useSlowMo)
      ensures peekUses == old(peekUses) && slowMoUses == old(slowMoUses)
    {
      gameState := Menu;
    }

    /** `usePeek`: once per game, and only while input is accepted; the sequence is replayed. */
    method UsePeek()
      requires Valid()
      modifies this
      ensures Valid()
      ensures old(peekAvailable) && old(acceptingInput) ==>
        !peekAvailable && peekUses == old(peekUses) + 1 && !acceptingInput
      ensures !(old(peekAvailable) && old(acceptingInput)) ==>
        peekAvailable == old(peekAvailable) && peekUses == old(peekUses) && acceptingInput == old(acceptingInput)
      ensures useSlowMo == (if old(peekAvailable) && old(acceptingInput) && gameState == Playing then false else old(useSlowMo))
      ensures gameState == old(gameState) && sequence == old(sequence) && playerSequence == old(playerSequence)
      ensures score == old(score) && combo == old(combo) && lives == old(lives)
      ensures highScore == old(highScore) && leaderboard == old(leaderboard)
      ensures slowMoAvailable == old(slowMoAvailable) && slowMoUses == old(slowMoUses)
    {
      if !peekAvailable || !acceptingInput {
        return;
      }
      peekAvailable := false;
      peekUses := peekUses + 1;
      acceptingInput := false;
      PlaySequence();
    }

    /** `useSlowMoFunc`: once per game, and only while input is accepted; the sequence is replayed. */
    method UseSlowMo()
      requires Valid()
      modifies this
      ensures Valid()
      ensures old(slowMoAvailable) && old(acceptingInput) ==>
        !slowMoAvailable && slowMoUses == old(slowMoUses) + 1 && !acceptingInput
        && useSlowMo == (gameState != Playing)
      ensures !(old(slowMoAvailable) && old(acceptingInput)) ==>
        slowMoAvailable == old(slowMoAvailable) && slowMoUses == old(slowMoUses)
        && acceptingInput == old(acceptingInput) && useSlowMo == old(useSlowMo)
      ensures gameState == old(gameState) && sequence == old(sequence) && playerSequence == old(playerSequence)
      ensures score == old(score) && combo == old(combo) && lives == old(lives)
      ensures highScore == old(highScore) && leaderboard == old(leaderboard)
      ensures peekAvailable == old(peekAvailable) && peekUses == old(peekUses)
    {
      if !slowMoAvailable || !acceptingInput {
        return;
      }
      slowMoAvailable := false;
      slowMoUses := slowMoUses + 1;
      useSlowMo := true;
      acceptingInput := false;
      PlaySequence();
    }

    /** `handleWrongInput`: a life lost and the combo broken; the game ends with the last life. */
    method HandleWrongInput(date: string, time: string)
      requires Counters() && gameState == Playing && lives >= 1
      requires |playerSequence| >= 1 && IsStrictPrefix(playerSequence[..|playerSequence| - 1], sequence)
      modifies this
      ensures Valid()
      ensures lives == old(lives) - 1 && combo == 0
      ensures lives == 0 ==>
        gameState == GameOver && !acceptingInput && playerSequence == old(playerSequence)
        && highScore == Raised(old(highScore), score)
        && leaderboard == SavedBoard(old(leaderboard), Entry(score, date, time))
      ensures lives > 0 ==>
        gameState == Playing && playerSequence == [] && !acceptingInput
        && highScore == old(highScore) && leaderboard == old(leaderboard)
      ensures sequence == old(sequence) && score == old(score)
      ensures peekAvailable == old(peekAvailable) && slowMoAvailable == old(slowMoAvailable) && useSlowMo == old(useSlowMo)
      ensures peekUses == old(peekUses) && slowMoUses == old(slowMoUses)
    {
      lives := lives - 1;
      combo := 0;
      if lives <= 0 {
        var _ := EndGame(date, time);
      } else {
        playerSequence := [];
        acceptingInput := false;
      }
    }

    /**
     * `handleCorrectSequence`: score and combo up by one, difficulty updated and the player's
     * entry cleared; the next colour is added by `AfterCorrectTimer`.
     */
    method HandleCorrectSequence()
      requires Counters() && gameState == Playing && lives >= 1 && sequence != []
      modifies this
      ensures Valid()
      ensures score == old(score) + 1 && combo == old(combo) + 1 && playerSequence == []
      ensures currentDifficulty == DifficultyFor(score)
      ensures gameState == old(gameState) && sequence == old(sequence) && lives == old(lives)
      ensures acceptingInput == old(acceptingInput)
      ensures highScore == old(highScore) && leaderboard == old(leaderboard)
      ensures peekAvailable == old(peekAvailable) && slowMoAvailable == old(slowMoAvailable) && useSlowMo == old(useSlowMo)
      ensures peekUses == old(peekUses) && slowMoUses == old(slowMoUses)
    {
      score := score + 1;
      combo := combo + 1;
      UpdateDifficulty();
      playerSequence := [];
    }

    /**
     * `checkPlayerInput`, after a colour was appended: a mismatch is a wrong input, a full match
     * completes the round, and otherwise the combo grows.
     */
    method CheckPlayerInput(date: string, time: string)
      requires Counters() && gameState == Playing && lives >= 1
      requires |playerSequence| >= 1 && IsStrictPrefix(playerSequence[..|playerSequence| - 1], sequence)
      modifies this
      ensures Valid()
      ensures var k := |old(playerSequence)| - 1;
        if old(playerSequence)[k] != old(sequence)[k] then
          lives == old(lives) - 1 && combo == 0 && score == old(score)
          && (lives == 0 ==>
                gameState == GameOver && !acceptingInput && playerSequence == old(playerSequence)
                && highScore == Raised(old(highScore), score)
                && leaderboard == SavedBoard(old(leaderboard), Entry(score, date, time)))
          && (lives > 0 ==>
                gameState == Playing && playerSequence == [] && !acceptingInput
                && highScore == old(highScore) && leaderboard == old(leaderboard))
        else if k + 1 == |old(sequence)| then
          score == old(score) + 1 && combo == old(combo) + 1 && lives == old(lives)
          && playerSequence == [] && gameState == Playing && acceptingInput == old(acceptingInput)
          && highScore == old(highScore) && leaderboard == old(leaderboard)
        else
          score == old(score) && combo == old(combo) + 1 && lives == old(lives)
          && playerSequence == old(playerSequence) && gameState == Playing && acceptingInput == old(acceptingInput)
          && highScore == old(highScore) && leaderboard == old(leaderboard)
      ensures sequence == old(sequence)
      ensures peekAvailable == old(peekAvailable) && slowMoAvailable == old(slowMoAvailable) && useSlowMo == old(useSlowMo)
      ensures peekUses == old(peekUses) && slowMoUses == old(slowMoUses)
    {
      var currentMoveIndex := |playerSequence| - 1;
      var isCorrect := playerSequence[currentMoveIndex] == sequence[currentMoveIndex];
      if !isCorrect {
        HandleWrongInput(date, time);
      } else if |playerSequence| == |sequence| {
        HandleCorrectSequence();
      } else {
        combo := combo + 1;
        assert playerSequence == sequence[..|playerSequence|];
      }
    }

    /** No game field a click could touch has changed. */
    twostate predicate Untouched()
      reads this
    {
      gameState == old(gameState) && playerSequence == old(playerSequence) && score == old(score)
      && combo == old(combo) && lives == old(lives) && acceptingInput == old(acceptingInput)
      && highScore == old(highScore) && leaderboard == old(leaderboard)
    }

    /**
     * The effect of `handleButtonClick(color)`: nothing unless playing with input accepted;
     * otherwise the colour is appended and checked. A wrong colour costs a life and ends the game
     * at zero lives, saving the score; the last right colour completes the round; any other
     * right colour only raises the combo.
     */
    twostate predicate ClickHandled(color: Color, date: string, time: string)
      requires old(Valid())
      reads this
    {
      if !(old(acceptingInput) && old(gameState) == Playing) then Untouched()
      else
        var k := |old(playerSequence)|;
        if color != old(sequence)[k] then
          lives == old(lives) - 1 && combo == 0 && score == old(score)
          && (lives == 0 ==>
                gameState == GameOver && !acceptingInput && playerSequence == old(playerSequence) + [color]
                && highScore == Raised(old(highScore), score)
                && leaderboard == SavedBoard(old(leaderboard), Entry(score, date, time)))
          && (lives > 0 ==>
                gameState == Playing && playerSequence == [] && !acceptingInput
                && highScore == old(highScore) && leaderboard == old(leaderboard))
        else if k + 1 == |old(sequence)| then
          score == old(score) + 1 && combo == old(combo) + 1 && lives == old(lives)
          && playerSequence == [] && gameState == Playing && acceptingInput
          && highScore == old(highScore) && leaderboard == old(leaderboard)
        else
          score == old(score) && combo == old(combo) + 1 && lives == old(lives)
          && playerSequence == old(playerSequence) + [color] && gameState == Playing && acceptingInput
          && highScore == old(highScore) && leaderboard == old(leaderboard)
    }

    /**
     * `handleButtonClick`: ignored unless playing with input accepted; otherwise the colour is
     * appended to the player's entry and checked. The date and time are those a game over would save.
     */
    method HandleButtonClick(color: Color, date: string, time: string)
      requires Valid()
      modifies this
      ensures Valid()
      ensures ClickHandled(color, date, time)
      ensures sequence == old(sequence)
      ensures peekAvailable == old(peekAvailable) && slowMoAvailable == old(slowMoAvailable) && useSlowMo == old(useSlowMo)
      ensures peekUses == old(peekUses) && slowMoUses == old(slowMoUses)
    {
      if !acceptingInput || gameState != Playing {
        return;
      }
      playerSequence := playerSequence + [color];
      assert playerSequence[..|playerSequence| - 1] == old(playerSequence);
      CheckPlayerInput(date, time);
    }

    /**
     * `handleKeyPress`: keys 1 to 4 act exactly as clicks on the red, blue, yellow and green
     * buttons; any other key, or a key while no input is accepted, changes nothing.
     */
    method HandleKeyPress(key: string, date: string, time: string)
      requires Valid()
      modifies this
      ensures Valid()
      ensures KeyColor(key).Some? ==> ClickHandled(KeyColor(key).value, date, time)
      ensures KeyColor(key).None? || old(gameState) != Playing || !old(acceptingInput) ==> Untouched()
      ensures sequence == old(sequence)
      ensures peekAvailable == old(peekAvailable) && slowMoAvailable == old(slowMoAvailable) && useSlowMo == old(useSlowMo)
      ensures peekUses == old(peekUses) && slowMoUses == old(slowMoUses)
    {
      if gameState != Playing || !acceptingInput {
        return;
      }
      var color := KeyColor(key);
      if color.Some? {
        HandleButtonClick(color.value, date, time);
      }
    }

    /**
     * The timer `handleCorrectSequence` sets: if the game is still running, `addToSequence`
     * appends `next` and the sequence is replayed.
     */
    method AfterCorrectTimer(next: Color)
      requires Valid()
      modifies this
      ensures Valid()
      ensures old(gameState) == Playing ==> sequence == old(sequence) + [next] && !acceptingInput && !useSlowMo
      ensures old(gameState) != Playing ==>
        sequence == old(sequence) && acceptingInput == old(acceptingInput) && useSlowMo == old(useSlowMo)
      ensures gameState == old(gameState) && playerSequence == old(playerSequence)
      ensures score == old(score) && combo == old(combo) && lives == old(lives)
      ensures highScore == old(highScore) && leaderboard == old(leaderboard)
      ensures peekAvailable == old(peekAvailable) && slowMoAvailable == old(slowMoAvailable)
      ensures peekUses == old(peekUses) && slowMoUses == old(slowMoUses)
    {
      if gameState == Playing {
        sequence := sequence + [next];
        assert playerSequence == sequence[..|playerSequence|];
        PlaySequence();
      }
    }
  }
}
