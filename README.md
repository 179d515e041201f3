# Portfolio website logic, modelled in Dafny

This project models the decision and state-update rules inside the interactive pages of a
personal portfolio website, and proves properties about them. The site is a set of browser
scripts plus a small Python development server. Each core script becomes one Dafny module:

- `Casino` (`casino.dfy`): the slot machine. It covers the balance, line and bet controls,
  deposits, cash-out, the stake and payout of a spin, drawing a 3×3 grid from the 150-symbol
  bag without replacement within a column, and the row and column win checker.
- `PatternGame` (`pattern_game.dfy`): the Simon-style memory game. It covers the
  menu/playing/paused/game-over state machine, checking the player's entry against the
  sequence, lives, combo, score, difficulty bands, the once-per-game power-ups, the high score
  and the top-5 leaderboard.
- `PasswordGenerator` (`password_generator.dfy`): builds a password from the selected
  character classes, with the random values as inputs. An in-place Fisher–Yates shuffle runs
  on an array. It also covers the strength score and its label.
- `Programs` (`programs.dfy`): the small demo programs:
  - the leap-year rule, the Fibonacci list and the FizzBuzz divisor lists;
  - the Swedish "a, b och c" joiner and the "bottles of beer" song;
  - the name-list parser and the "who pays for lunch" picker;
  - the guest-list check, the character counter and dog years.
- `DevServer` (`dev_server.dfy`): the development server's achievement API. It covers the
  GET snapshot and the POST validation and update. The update sets clicks to `max(clicks, 0)`
  and keeps the distinct string keys in first-occurrence order.
- `Achievements` (`achievements.dfy`): the achievement tracker loaded on every page. It has a
  progress store whose mode moves from server to local and never back. It counts clicks,
  derives keys, and unlocks by click threshold, by CSS selector or by form submission. It
  queues at most one save at a time.
- `AchieveSummary` (`achieve.dfy`): the achievements overview page. It covers progress
  sanitising, the load mode, and the count and rounded percentage of unlocked items.
- `Widgets` (`widgets.dfy`): the flip card, the card carousel's index arithmetic and class
  assignment, and the per-letter wrapping of navigation links.
- `NarrativeGame` (`spel.dfy`): the text adventure. It runs through a linear sequence of
  screens: dice, weapon, quiz, "find it" and the final enemy. It also covers the reset and
  retry buttons.

Three shared modules support them:

- `JsText` (`js_text.dfy`) models the JavaScript string built-ins the scripts use: `trim`,
  ASCII/Latin-1 `toLowerCase`, `String(n)` for integers, `Number.parseInt(s, 10)` and `join`.
- `Json` (`json.dfy`) holds the values `JSON.parse` and Python's `json.loads` produce.
- `Wrappers` (`wrappers.dfy`) holds `Option` and `Result`.

Randomness, the network, storage and the clock are parameters:

- random picks are index oracles;
- a fetch result is `Option<Json>`;
- a storage entry is a `LocalEntry`;
- the date and time strings of a leaderboard entry are arguments.

Timers are explicit methods that the caller invokes at the time the timer would fire, for
example `PatternGame.InputTimer`, `PatternGame.AfterCorrectTimer` and
`AchievementTracker.RunPersistMicrotask`.

`Number(...)` on a form field is a `JsNum`, which is a whole number, a fraction or a
non-finite value.

Every module is written against the source as it stands. The "Find it" stage of the
adventure draws the correct index from 0..11 but creates only five targets, so seven draws in
twelve cannot be won. `NarrativeGame.FindItWinnableIff` states this exactly, and the model
keeps that behaviour.

## Model

| member | source | states |
|---|---|---|
| Casino.Repeat | Scripts/casino.js:248-251 | `count` copies of one symbol, nothing else |
| Casino.Bag | Scripts/casino.js:247-252 | the bag built from the symbol counts has 150 entries |
| Casino.BagOfLength | Scripts/casino.js:12-19 | the counts 30+28+25+25+22+20 add up to the 150-entry bag |
| Casino.Position | Scripts/casino.js:10 | every symbol has an index below six in the symbol list |
| Casino.PositionUnique | Scripts/casino.js:10 | the symbol at position i is the one whose position is i, and only that one |
| Casino.BagOfContents | Scripts/casino.js:247-252 | after the first k symbols are pushed, the bag holds each of them exactly `symbolCount` times and no other symbol |
| Casino.RepeatMultiset | Scripts/casino.js:249-251 | the inner push loop adds exactly `count` copies of the symbol |
| Casino.BagContents | Scripts/casino.js:247-252 | the finished bag holds each symbol exactly `symbolCount[s]` times |
| Casino.BuildBag | Scripts/casino.js:247-252 | the nested push loops build the bag, with each symbol present exactly its count times |
| Casino.Remove | Scripts/casino.js:262 | `splice(i, 1)` shortens the bag by one |
| Casino.RemoveMultiset | Scripts/casino.js:262 | splicing out index i removes exactly one copy of `bag[i]` |
| Casino.Draw | Scripts/casino.js:257-263 | a column has one symbol per pick |
| Casino.DrawColumn | Scripts/casino.js:256-265 | the row loop of one column draws the symbols `Draw` specifies, from a fresh copy of the bag |
| Casino.DrawColumns | Scripts/casino.js:254-266 | the column loop gives three columns of three, each drawn from its own copy of the bag |
| Casino.GenerateSpin | Scripts/casino.js:246-267 | `generateSpin` yields a 3×3 grid whose columns are the draws from the full bag |
| Casino.DrawWithoutReplacement | Scripts/casino.js:257-263 | the symbols of a column form a sub-multiset of the bag it was drawn from |
| Casino.DrawRespectsCounts | Scripts/casino.js:246-267 | no column holds a symbol more often than its count in the bag |
| Casino.SumWinningsAppend | Scripts/casino.js:341-343 | the total over two lists of wins is the sum of their totals |
| Casino.RowWins | Scripts/casino.js:331-338 | a row wins when all three columns show the same symbol in it |
| Casino.RowMatches | Scripts/casino.js:331-338 | the inner row loop, with its early `break`, reports a win iff all three columns show the same symbol in that row |
| Casino.ColumnWins | Scripts/casino.js:350-357 | a column wins when its three cells are equal |
| Casino.ColumnMatches | Scripts/casino.js:350-357 | the inner column loop reports a win iff all three cells of the column are equal |
| Casino.IncreasingSnoc | Scripts/casino.js:339 | appending an index above all earlier ones keeps the list strictly increasing |
| Casino.WinningRows | Scripts/casino.js:330-346 | the winning rows among the paid lines, in increasing order |
| Casino.WinningRowsExact | Scripts/casino.js:330-346 | a row is listed iff its index is below `lines` and it wins; rows are listed in increasing order |
| Casino.WinningColumnsExact | Scripts/casino.js:349-365 | a column is listed iff it wins; columns are listed in increasing order |
| Casino.RowDetailsDescribe | Scripts/casino.js:339-344 | the i-th row detail names the i-th winning row, its symbol and `bet * value` |
| Casino.ColumnDetailsDescribe | Scripts/casino.js:358-363 | the i-th column detail names the i-th winning column, its symbol and `bet * value` |
| Casino.RowDetailsPay | Scripts/casino.js:341-343 | the row details sum to the row winnings |
| Casino.ColumnDetailsPay | Scripts/casino.js:360-362 | the column details sum to the column winnings |
| Casino.CheckRows | Scripts/casino.js:330-346 | the row loop lists exactly the winning rows below `lines`, in increasing order, each with its detail, and adds their pay |
| Casino.CheckColumns | Scripts/casino.js:349-365 | the column loop lists exactly the winning columns, whatever the line count, each with its detail, and adds their pay |
| Casino.CheckWinningLines | Scripts/casino.js:322-368 | `totalWinnings` is the sum over winning rows and columns of the per-line bet times the symbol value, and equals the sum of both detail lists |
| Casino.RowsTotal | Scripts/casino.js:330-346 | the row winnings: `bet * value` summed over the winning paid rows |
| Casino.RowsTotalMonotone | Scripts/casino.js:330 | paying for more lines never lowers the row winnings of a grid |
| Casino.NothingWonIffNoLine | Scripts/casino.js:322-368 | the winnings are zero exactly when no paid row and no column wins |
| Casino.RowsTotalZero | Scripts/casino.js:330-346 | the row winnings are zero iff no paid row wins |
| Casino.ColumnsTotalZero | Scripts/casino.js:349-365 | the column winnings are zero iff no column wins |
| Casino.WinningsBound | Scripts/casino.js:322-368 | a spin pays at most `(lines + 3) * bet * 300`, the diamond value on every line |
| Casino.PayAtMostTop | Scripts/casino.js:21-28 | no symbol pays more than the diamond |
| Casino.RowsTotalBound | Scripts/casino.js:330-346 | the row winnings are at most `lines * bet * 300` |
| Casino.ColumnsTotalBound | Scripts/casino.js:349-365 | the column winnings are at most `3 * bet * 300` |
| Casino.CellIndex | Scripts/casino.js:270-277 | the column-major position `col * rows + row` of a cell |
| Casino.CellIndexBijective | Scripts/casino.js:270-277 | `col * rows + row` is a cell below 9 from which the column and row are recovered, so no two cells collide |
| Casino.ClampBet | Scripts/casino.js:142-148 | a typed bet is clamped into [1, 10000] and kept when already inside |
| Casino.SlotMachine.constructor | Scripts/casino.js:31-34 | balance 0, one line, bet 100, not spinning |
| Casino.SlotMachine.TotalBet | Scripts/casino.js:167 | the stake of one spin, `currentBet * currentLines` |
| Casino.SlotMachine.DecreaseLines | Scripts/casino.js:112-117 | lines drop by one unless at the minimum 1; nothing else changes |
| Casino.SlotMachine.IncreaseLines | Scripts/casino.js:119-124 | lines rise by one unless at the maximum 3; nothing else changes |
| Casino.SlotMachine.DecreaseBet | Scripts/casino.js:127-132 | above the minimum the bet drops by 50 but not below 1; nothing else changes |
| Casino.SlotMachine.IncreaseBet | Scripts/casino.js:134-139 | below the maximum the bet rises by 100 but not above 10000; nothing else changes |
| Casino.SlotMachine.SetBetFromInput | Scripts/casino.js:142-148 | a typed number becomes the clamped bet; a NaN changes nothing |
| Casino.SlotMachine.ConfirmDeposit | Scripts/casino.js:219-231 | accepted iff the amount is a number above 0, and then the balance rises by exactly that amount; otherwise nothing changes |
| Casino.SlotMachine.Cashout | Scripts/casino.js:234-243 | the whole balance is paid out and the balance becomes 0 |
| Casino.SlotMachine.LeverPull | Scripts/casino.js:403-420 | the lever goes on to the spin iff no spin runs and the balance covers bet × lines; nothing changes |
| Casino.SlotMachine.BeginSpin | Scripts/casino.js:423-439 | refused, with nothing changed, while spinning or when the balance is below bet × lines; otherwise that stake is taken and the spin begins |
| Casino.SlotMachine.FinishSpin | Scripts/casino.js:449-478 | the grid's winnings for the current lines and bet are added to the balance and the spin ends |
| Casino.SlotMachine.Spin | Scripts/casino.js:423-486 | an accepted spin leaves `balance - bet × lines + winnings` for the 3×3 grid whose column c is `Draw(Bag(), picks[c])`, drawn from the bag; a refused one leaves the balance alone; the balance stays non-negative |
| PatternGame.DifficultyFor | Scripts/pattern-game.js:175-185 | the level `updateDifficulty` picks from the score; `DifficultyReached` proves it is the highest level whose threshold is reached |
| PatternGame.DifficultyReached | Scripts/pattern-game.js:175-192 | the difficulty chosen is the highest band whose threshold (0, 5, 10, 15) the score reaches |
| PatternGame.DifficultyMonotone | Scripts/pattern-game.js:175-192 | a higher score never gives a lower difficulty |
| PatternGame.DifficultyBands | Scripts/pattern-game.js:175-192 | Easy, Medium, Hard and Expert hold exactly for scores in [0,5), [5,10), [10,15) and [15,∞) |
| PatternGame.KeyColor | Scripts/pattern-game.js:452-457 | the `keyMap` of `handleKeyPress`: '1' red, '2' blue, '3' yellow, '4' green, no colour for any other key |
| PatternGame.KeyColorBijective | Scripts/pattern-game.js:452-457 | each of the four colours has exactly one key among '1'..'4' |
| PatternGame.AtLeastPrefix | Scripts/pattern-game.js:413 | the entries of a sorted board scoring at least v form its prefix |
| PatternGame.Insert | Scripts/pattern-game.js:413 | one step of the stable descending sort; `InsertPosition`, `InsertSorted` and `InsertWithScore` state where the entry lands |
| PatternGame.SortByScore | Scripts/pattern-game.js:413 | `sort((a, b) => b.score - a.score)` as a stable insertion sort; `SortByScoreCorrect` proves it sorted and a permutation, `SortByScoreStable` stable |
| PatternGame.InsertPosition | Scripts/pattern-game.js:413 | inserting an entry places it after every entry with a score at least its own |
| PatternGame.InsertSorted | Scripts/pattern-game.js:413 | inserting into a sorted board keeps it sorted and adds exactly that entry |
| PatternGame.SpliceSorted | Scripts/pattern-game.js:413 | splicing an entry in at its place keeps the board sorted by non-increasing score |
| PatternGame.SpliceMultiset | Scripts/pattern-game.js:413 | splicing adds exactly the one entry |
| PatternGame.SortByScoreCorrect | Scripts/pattern-game.js:413 | the stable sort by descending score is sorted and a permutation of the board |
| PatternGame.SortByScoreOfSorted | Scripts/pattern-game.js:413 | sorting a board that is already sorted leaves it unchanged |
| PatternGame.SortByScoreSnoc | Scripts/pattern-game.js:407-413 | sorting the board with the new entry pushed last is inserting it into the sorted board |
| PatternGame.InsertWithScore | Scripts/pattern-game.js:413 | inserting into a sorted board puts the entry after every entry with its own score |
| PatternGame.SortByScoreStable | Scripts/pattern-game.js:413 | the sort is stable: for every score, the entries with that score come out in the order they went in |
| PatternGame.Top5 | Scripts/pattern-game.js:414 | `slice(0, 5)`: the first five entries, or all of them when there are fewer |
| PatternGame.Top5Properties | Scripts/pattern-game.js:414 | `slice(0, 5)` keeps at most five entries, keeps a sorted board sorted and keeps only entries of the board |
| PatternGame.SavedBoard | Scripts/pattern-game.js:404-417 | the stored board: the new entry pushed, sorted by descending score, cut to five |
| PatternGame.SavedBoardProperties | Scripts/pattern-game.js:404-417 | the saved board has at most 5 entries, is sorted, holds only old entries and the new one, and keeps the new one when it is among the top five |
| PatternGame.Raised | Scripts/pattern-game.js:388-394 | the high score becomes the larger of the old high score and the score; a NaN high score stays NaN |
| PatternGame.PatternGame.constructor | Scripts/pattern-game.js:396-402 | the menu with empty sequences, 3 lives and both power-ups available; a non-empty stored high score is parsed, and a stored `String(h)` gives back h |
| PatternGame.PatternGame.UpdateDifficulty | Scripts/pattern-game.js:175-192 | the difficulty follows the score; nothing else changes |
| PatternGame.PatternGame.PlaySequence | Scripts/pattern-game.js:201-224 | while playing, input is closed and slow motion is cleared until the replay ends; otherwise nothing changes |
| PatternGame.PatternGame.InputTimer | Scripts/pattern-game.js:213-217 | the timer after the last flash opens input; nothing else changes |
| PatternGame.PatternGame.StartGame | Scripts/pattern-game.js:293-317 | playing with score 0, combo 0, 3 lives, Easy, both power-ups unused and a one-colour sequence; high score and leaderboard kept |
| PatternGame.PatternGame.PauseGame | Scripts/pattern-game.js:319-324 | a game in play is paused with input closed; in any other state nothing changes |
| PatternGame.PatternGame.ResumeGame | Scripts/pattern-game.js:326-330 | a paused game plays again with input open; nothing else changes |
| PatternGame.PatternGame.UpdateHighScore | Scripts/pattern-game.js:388-394 | the high score becomes the maximum of the old one and the score; nothing else changes |
| PatternGame.PatternGame.SaveScoreToLeaderboard | Scripts/pattern-game.js:404-417 | the board with the new entry pushed, sorted by descending score and cut to five; at most five entries, sorted |
| PatternGame.PatternGame.EndGame | Scripts/pattern-game.js:332-350 | game over with input closed, the high score raised and the score saved; "new high score" shows iff the score is positive and at least the old high score |
| PatternGame.PatternGame.ResetToMenu | Scripts/pattern-game.js:352-358 | back to the menu; nothing else changes |
| PatternGame.PatternGame.UsePeek | Scripts/pattern-game.js:363-369 | peek takes effect only while available and input is open, then is spent for the rest of the game and the sequence replays |
| PatternGame.PatternGame.UseSlowMo | Scripts/pattern-game.js:371-378 | slow motion takes effect only while available and input is open, then is spent for the rest of the game and the sequence replays |
| PatternGame.PatternGame.HandleWrongInput | Scripts/pattern-game.js:247-269 | one life lost and the combo reset; at 0 lives the game ends, otherwise the entry is cleared and input closed |
| PatternGame.PatternGame.HandleCorrectSequence | Scripts/pattern-game.js:271-288 | score and combo each rise by exactly one, the difficulty follows, and the entry is cleared |
| PatternGame.PatternGame.CheckPlayerInput | Scripts/pattern-game.js:232-245 | a wrong last colour loses a life; a right one completing the sequence scores; a right one partway only raises the combo; during play the entry stays a prefix of the sequence |
| PatternGame.PatternGame.HandleButtonClick | Scripts/pattern-game.js:468-484 | ignored unless playing with input open; otherwise the colour is appended and checked as above |
| PatternGame.PatternGame.HandleKeyPress | Scripts/pattern-game.js:449-463 | keys 1–4 have exactly the effect of a click on the red, blue, yellow or green button (the same state change `HandleButtonClick` promises); any other key, or any key while not playing with input open, changes nothing |
| PatternGame.PatternGame.AfterCorrectTimer | Scripts/pattern-game.js:281-287 | still playing, one colour is appended to the sequence and it replays; otherwise the sequence stays |
| PasswordGenerator.Pool | Scripts/passwordGenerator.js:8-21 | lowercase always, then upper case, digits and specials when selected |
| PasswordGenerator.CharTypes | Scripts/passwordGenerator.js:8-21 | `char_types`: the selected optional classes, in order |
| PasswordGenerator.CharTypesInPool | Scripts/passwordGenerator.js:8-21 | every character of a selected class is in the pool |
| PasswordGenerator.Choose | Scripts/passwordGenerator.js:24-29 | `secureChoice` returns a character of the string it draws from |
| PasswordGenerator.Unshuffled | Scripts/passwordGenerator.js:32-39 | the characters before the shuffle number `max(length, classes)` |
| PasswordGenerator.CharTypesNonEmpty | Scripts/passwordGenerator.js:8-21 | the pool and every selected class are non-empty |
| PasswordGenerator.BuildPool | Scripts/passwordGenerator.js:8-21 | the pool grows by each selected class, in the order uppercase, digits, special, and every class is non-empty |
| PasswordGenerator.DrawCharacters | Scripts/passwordGenerator.js:32-39 | the two push loops draw one character per class, then fill from the pool up to the length |
| PasswordGenerator.UnshuffledDraws | Scripts/passwordGenerator.js:32-39 | before the shuffle every character is from the pool, and the first ones are one per class, in class order |
| PasswordGenerator.SwapIndex | Scripts/passwordGenerator.js:42 | `floor(r / 2^32 * (i + 1))` lies in [0, i] |
| PasswordGenerator.Swap | Scripts/passwordGenerator.js:43 | a swap keeps the length |
| PasswordGenerator.SwapIsPermutation | Scripts/passwordGenerator.js:43 | a swap only reorders the characters |
| PasswordGenerator.Shuffle | Scripts/passwordGenerator.js:41-44 | the shuffle keeps the length |
| PasswordGenerator.ShuffleIsPermutation | Scripts/passwordGenerator.js:41-44 | the Fisher–Yates pass is a permutation of its input |
| PasswordGenerator.ShuffleInPlace | Scripts/passwordGenerator.js:41-44 | the in-place swap loop on the array leaves exactly the shuffled sequence |
| PasswordGenerator.ShuffleAll | Scripts/passwordGenerator.js:41-44 | shuffling keeps the length; an empty list stays empty |
| PasswordGenerator.FoundIn | Scripts/passwordGenerator.js:41-44 | each character of one arrangement sits somewhere in any permutation of it |
| PasswordGenerator.DrawAndShuffleChars | Scripts/passwordGenerator.js:32-45 | drawing, then the in-place shuffle on an array, gives the shuffled draw |
| PasswordGenerator.PasswordLength | Scripts/passwordGenerator.js:33-39 | one character per selected class, then the pool fill up to `length` |
| PasswordGenerator.Generated | Scripts/passwordGenerator.js:4-46 | the error for a length below 4, else the shuffle of the forced and pool characters; `GeneratedPasswordProperties` states its length, pool, classes and permutation |
| PasswordGenerator.GeneratePassword | Scripts/passwordGenerator.js:4-46 | the error for a length below 4; otherwise the shuffled draw over the selected pool |
| PasswordGenerator.DrawAndShuffle | Scripts/passwordGenerator.js:32-44 | after the shuffle every character is still from the pool, every class still has a character, and the multiset is unchanged |
| PasswordGenerator.GeneratedPasswordProperties | Scripts/passwordGenerator.js:4-46 | error iff length < 4; otherwise exactly `length` characters, all from the pool, at least one per selected class, a permutation of the drawn characters |
| PasswordGenerator.LengthBonus | Scripts/passwordGenerator.js:57-63 | the length bonus is at most 3 |
| PasswordGenerator.Score | Scripts/passwordGenerator.js:50-75 | the score is at most 11 |
| PasswordGenerator.Rate | Scripts/passwordGenerator.js:77-85 | the label is one of the four strength labels |
| PasswordGenerator.RateTopLabels | Scripts/passwordGenerator.js:56-85 | "Väldigt starkt" iff length ≥ 16 with all four classes; "Starkt" iff 12 ≤ length < 16 with all four |
| PasswordGenerator.ScoreMonotone | Scripts/passwordGenerator.js:50-75 | appending characters never lowers the score |
| PasswordGenerator.UppercaseChars | Scripts/passwordGenerator.js:8-54 | every uppercase pool character matches `[A-Z]` |
| PasswordGenerator.DigitChars | Scripts/passwordGenerator.js:8-54 | every digit pool character matches `\d` |
| PasswordGenerator.SpecialChars | Scripts/passwordGenerator.js:8-54 | every special pool character matches the special-character class of the rater |
| PasswordGenerator.ThreeClassesScore | Scripts/passwordGenerator.js:56-75 | 16 characters with uppercase, a digit and a special character score at least 9 |
| PasswordGenerator.FullOptionsRateAtLeastMedium | Scripts/passwordGenerator.js:4-85 | a generated password of length ≥ 16 with every option on is never rated "Svagt" |
| Programs.IsLeap | Scripts/programs.js:455-470 | null exactly for a negative, fractional or non-finite year |
| Programs.IsLeapRule | Scripts/programs.js:455-470 | a year is leap iff divisible by 4 and not by 100, or divisible by 400 |
| Programs.IsLeapPeriod | Scripts/programs.js:455-470 | the rule repeats every 400 years |
| Programs.YearMessage | Scripts/programs.js:472-486 | a non-integer gives the "giltigt heltal" message; a negative integer gives "Ogiltigt år."; a non-negative year y gives "År y är ett skottår." exactly when y is divisible by 4 and not by 100, or by 400, and "År y är inte ett skottår." otherwise |
| Programs.Fib | Scripts/programs.js:825-841 | the Fibonacci numbers 0, 1, 1, 2, …; the generator's output is proved equal to them |
| Programs.FibMonotone | Scripts/programs.js:825-841 | the Fibonacci numbers never decrease |
| Programs.FibonacciNumbers | Scripts/programs.js:830-840 | the push loop yields exactly the first `count` Fibonacci numbers |
| Programs.FibonacciRecurrence | Scripts/programs.js:831-838 | every element from index 2 on is the sum of the two before it |
| Programs.FibonacciGenerator | Scripts/programs.js:825-841 | null exactly for a negative or non-integer count; otherwise n numbers starting 0, 1, each the sum of the two before |
| Programs.JoinWithOch | Scripts/programs.js:700-711 | "" for none, the element for one, "a och b" for two |
| Programs.JoinWithOchIsOchList | Scripts/programs.js:700-711 | for three or more it is the comma-joined list with " och " before the last item |
| Programs.Divisors | Scripts/programs.js:729-738 | the divisor list is the ascending sublist of [2, 3, 5] dividing i |
| Programs.DivisorTexts | Scripts/programs.js:752 | each divisor is written with `String` |
| Programs.ItemTextIsNumberIff | Scripts/programs.js:740-754 | the item text is `String(i)` iff no divisor applies; the item's class names how many did |
| Programs.MultiplesOfThirty | Scripts/programs.js:729-738 | multiples of 30 list all three divisors |
| Programs.ItemFor | Scripts/programs.js:729-755 | the item for i: its text is `String(i)` when none of 2, 3 and 5 divides i, else "i är delbart med" and those divisors joined with "och", followed by a full stop; its style class is how many of them divide i |
| Programs.FizzBuzzItem | Scripts/programs.js:729-755 | one loop iteration builds the item for i |
| Programs.RunFizzBuzz | Scripts/programs.js:713-762 | an error text unless the input is an integer ≥ 1; otherwise one item per number 1..n in order and the summary text |
| Programs.FizzBuzzItems | Scripts/programs.js:728-756 | the loop builds exactly n items, the k-th being the item for k + 1 |
| Programs.StanzaByPhrase | Scripts/programs.js:924-947 | the counting stanza in one pattern: n bottles, take one down, n − 1 left |
| Programs.StanzaLines | Scripts/programs.js:924-947 | every stanza has two lines |
| Programs.StanzaPattern | Scripts/programs.js:924-947 | for n ≥ 1 the stanza counts n, then n − 1 "bottle" or "bottles", singular exactly when one remains, "no more" at zero |
| Programs.SongFrom | Scripts/programs.js:961-967 | the stanzas from i down to 0 with a blank line between |
| Programs.SongFromLength | Scripts/programs.js:961-967 | the stanzas from i down to 0 with blank lines between take 3i + 2 lines |
| Programs.SongFromStep | Scripts/programs.js:962-967 | each step of the loop appends a stanza and, except after stanza 0, a blank line |
| Programs.SongParts | Scripts/programs.js:961-967 | the countdown loop builds the stanzas from `cap` to 0 |
| Programs.GenerateSong | Scripts/programs.js:949-973 | an error unless the input is an integer ≥ 0; otherwise at most 300 stanzas, 3·cap + 2 lines plus a truncation note when capped, joined by newlines |
| Programs.Fields | Scripts/programs.js:173-174 | the split gives at least one field and no field holds ',', ';' or a newline |
| Programs.TrimAndDropEmpty | Scripts/programs.js:175-176 | no name kept is empty, and there are at most as many names as pieces |
| Programs.NamesAreTrimmedFields | Scripts/programs.js:175-176 | every name kept is one of the pieces, trimmed |
| Programs.ParseNames | Scripts/programs.js:169-177 | an empty input gives no names; every name is non-empty, trimmed and free of separators |
| Programs.TrimmedFieldsClean | Scripts/programs.js:173-176 | trimmed fields without separators stay trimmed and without separators |
| Programs.FieldsOfPlain | Scripts/programs.js:174 | text without separators is one field |
| Programs.FieldsAfterPlain | Scripts/programs.js:174 | a separator after plain text splits off that text |
| Programs.FieldsOfSpaced | Scripts/programs.js:174 | a leading space stays in the first field |
| Programs.FieldsOfJoined | Scripts/programs.js:174 | splitting names joined by ", " gives the first name, then each other name after a space |
| Programs.ParseNamesOfJoined | Scripts/programs.js:169-177 | parsing clean names joined by ", " gives back exactly those names |
| Programs.CleanFieldsDropNothing | Scripts/programs.js:175-176 | fields that trim to clean names lose none of them |
| Programs.FieldTrimsToName | Scripts/programs.js:175 | a field that is a clean name, or a space and a clean name, trims to that name |
| Programs.TrimmedFieldsDropNothing | Scripts/programs.js:175-176 | fields that trim to non-empty names keep all of them, in order |
| Programs.WhosPaying | Scripts/programs.js:158-167 | null exactly for an empty list; otherwise one of the names |
| Programs.PickAndShow | Scripts/programs.js:183-191 | the prompt when no name parses; otherwise the picked name and the lunch message |
| Programs.FindGuest | Scripts/programs.js:393 | a guest is found iff one equals the name case-insensitively, and the guest returned is such a one |
| Programs.CheckNameAgainst | Scripts/programs.js:387-399 | `checkName` against a guest list: the prompt, the welcome in the list's spelling, or the refusal |
| Programs.CheckName | Scripts/programs.js:387-399 | `checkName` with the page's fixed guest list |
| Programs.CheckNameOutcome | Scripts/programs.js:387-399 | a blank name gives the prompt; a case-insensitive match greets the guest in the list's spelling; otherwise "is not on the list" |
| Programs.CheckNameCaseInsensitive | Scripts/programs.js:387-399 | names differing only in case or padding get the same welcome |
| Programs.FindGuestDependsOnLower | Scripts/programs.js:393 | the lookup depends only on the lower-cased name |
| Programs.CounterText | Scripts/programs.js:262-265 | the counter text: length, maximum and count left |
| Programs.CounterCounts | Scripts/programs.js:262-265 | the counter shows the length, the maximum 140 and the count left, negative past the maximum |
| Programs.Clipped | Scripts/programs.js:268 | `slice(0, 140)` keeps the first min(length, 140) characters |
| Programs.PreviewText | Scripts/programs.js:267-271 | the preview starts with the clipped text, and the count left is never negative |
| Programs.PreviewStartsWithText | Scripts/programs.js:267-271 | within the maximum the preview begins with the whole text |
| Programs.CalcHumanYears | Scripts/programs.js:323-336 | a non-finite age and a negative age each give their error text |
| Programs.DogYearsLinear | Scripts/programs.js:333-334 | a whole age a gives `4a + 13` human years |
| DevServer.StripStart | serve.py:71 | stripping leading whitespace leaves a suffix starting with a non-space |
| DevServer.StripEnd | serve.py:71 | stripping trailing whitespace leaves a prefix ending with a non-space |
| DevServer.PyIntOfStripped | serve.py:71 | `int()` of a stripped string: an optional '+' or '-', then one or more ASCII digits, else `ValueError` |
| DevServer.PyIntOfString | serve.py:71 | `int(s)` succeeds only when something is left after stripping |
| DevServer.PyIntOfIntToString | serve.py:71 | `int` reads back any integer written in decimal |
| DevServer.PyIntOfDigits | serve.py:71 | `int` of a string of digits is their decimal value |
| DevServer.PyIntOfSignedDigits | serve.py:71 | `int` of '-' and digits is the negated decimal value |
| DevServer.PyInt | serve.py:71 | `int()` of a JSON integer is itself, of a boolean 0 or 1, and fails for null, lists and objects |
| DevServer.PyIntOfFloat | serve.py:71 | `int()` of a finite float succeeds and truncates toward zero |
| DevServer.Validate | serve.py:66-77 | no body reads as `{}` with clicks 0; a body that is not JSON, not an object, with a non-integer clicks or a non-list `unlocked` is an error; otherwise the clicks and list |
| DevServer.FirstIndex | serve.py:84 | the first position of a key in the list |
| DevServer.UniqueStrings | serve.py:82-86 | the string keys in first-occurrence order, each once; its lemmas prove them distinct, complete and ordered |
| DevServer.UniqueStringsProperties | serve.py:82-86 | the kept keys are distinct and are exactly the string elements of the list |
| DevServer.FirstIndexOfPrefix | serve.py:83-85 | a key's first position is the same in a prefix that holds it |
| DevServer.UniqueStringsOrder | serve.py:82-86 | the kept keys appear in the order of their first occurrence |
| DevServer.UniqueStringsOfDistinct | serve.py:82-86 | a list of distinct string keys is kept as it is |
| DevServer.UniqueStringKeys | serve.py:82-86 | the append loop keeps each string key once, in first-occurrence order |
| DevServer.ProgressServer.constructor | serve.py:34 | the progress starts at 0 clicks and no keys |
| DevServer.ProgressServer.Get | serve.py:53-61 | GET on the API path returns the current record and changes nothing; other paths go to the static handler |
| DevServer.ProgressServer.Post | serve.py:63-91 | on the API path an invalid payload gives 400 and changes nothing, and a valid one stores `max(clicks, 0)` and the distinct string keys and answers ok; any other path gets no response and changes nothing |
| Achievements.SanitizeProgress | Scripts/achievements.js:33-34 | finite clicks are kept, otherwise 0; an array `unlocked` is kept, otherwise [] |
| Achievements.ReadLocal | Scripts/achievements.js:28-40 | no entry or an unreadable one gives 0 clicks and nothing unlocked; a stored value is sanitised |
| Achievements.NumberJson | Scripts/achievements.js:45 | a finite click count survives `JSON.stringify` and `JSON.parse` |
| Achievements.ReadLocalOfWritten | Scripts/achievements.js:28-49 | what `writeLocal` stores, `readLocal` reads back unchanged |
| Achievements.ProgressStore.constructor | Scripts/achievements.js:24 | the store starts local for a file page and in server mode otherwise |
| Achievements.ProgressStore.WriteLocal | Scripts/achievements.js:43-49 | the progress is stored unless storage throws; the mode is unchanged |
| Achievements.ProgressStore.Load | Scripts/achievements.js:52-75 | server mode returns the fetched data sanitised; a failed fetch switches to local mode for good and reads the local entry |
| Achievements.ProgressStore.Save | Scripts/achievements.js:78-100 | posted iff in server mode and the POST succeeds; a failure switches to local mode and writes locally |
| Achievements.ProgressStore.Flush | Scripts/achievements.js:103-114 | a beacon iff server mode, beacons supported and sending does not throw; otherwise a local write; the mode never changes |
| Achievements.LocalIsFinal | Scripts/achievements.js:52-114 | once local, load, save and flush all leave the store local |
| Achievements.KeyForItem | Scripts/achievements.js:165-173 | `getKeyForItem`: id, then `submit-`, `selector-`, `trigger-`, `click-` and `index-` keys, the first whose data is present |
| Achievements.KeyForItemPriority | Scripts/achievements.js:165-173 | the key comes from the first available of id, submit-, selector-, trigger- and click-, and is `index-` with the index when none is present |
| Achievements.KeysOfPlainItemsDiffer | Scripts/achievements.js:172 | items without attributes get different index keys |
| Achievements.KeysOfTriggersDiffer | Scripts/achievements.js:170 | different click triggers give different keys |
| Achievements.SanitizeSelector | Scripts/achievements.js:224-227 | a missing selector is empty; a present one is trimmed, and trimming again changes nothing |
| Achievements.ClickTrigger | Scripts/achievements.js:200 | `Number.parseInt(triggerClick || '', 10)`, `None` for `NaN` |
| Achievements.Duration | Scripts/achievements.js:189 | `Number.parseInt(duration || '10000', 10)`: 10000 without the attribute, `None` for `NaN` |
| Achievements.ClickEntriesExact | Scripts/achievements.js:199-204 | the click achievements are exactly the items whose trigger parses, each with that trigger and its key |
| Achievements.SelectorEntriesExact | Scripts/achievements.js:230-235 | the selector and submit achievements are exactly the items with a non-blank trimmed selector, each with its key |
| Achievements.ListsFor | Scripts/achievements.js:199-266 | every entry of the three lists refers to one of the items |
| Achievements.Add | Scripts/achievements.js:184 | `Set.add` keeps insertion order, adds the value only when absent and keeps the values distinct |
| Achievements.ToSet | Scripts/achievements.js:145 | `new Set(list)` holds each listed value once |
| Achievements.RemoveKey | Scripts/achievements.js:191-194 | removing a toast removes exactly that key from the host |
| Achievements.AchievementTracker.constructor | Scripts/achievements.js:120-148 | the loaded clicks and unlocked set, the three achievement lists, no toasts and no save queued |
| Achievements.AchievementTracker.Persist | Scripts/achievements.js:149-157 | a save is queued, and a second call before it runs queues no other |
| Achievements.AchievementTracker.RunPersistMicrotask | Scripts/achievements.js:153-156 | the queued task clears the flag and saves the progress as it stands |
| Achievements.AchievementTracker.BeforeUnload | Scripts/achievements.js:160-162 | unloading flushes the current progress |
| Achievements.AchievementTracker.ShowAchievement | Scripts/achievements.js:176-196 | nothing when the key's toast is on screen; otherwise a toast, the key added to the unlocked set and a save queued; the toast expires iff its duration is positive |
| Achievements.AchievementTracker.ToastExpired | Scripts/achievements.js:191-194 | the toast leaves and the key stays unlocked |
| Achievements.AchievementTracker.MaybeUnlockAchievements | Scripts/achievements.js:207-212 | every click achievement whose trigger the clicks reach is unlocked; nothing is lost and nothing else added |
| Achievements.AchievementTracker.Start | Scripts/achievements.js:214 | the first check unlocks every click achievement the loaded clicks already earn, keeps the loaded keys first, and adds nothing else |
| Achievements.AchievementTracker.DocumentClick | Scripts/achievements.js:217-221 | each click adds exactly one click, queues a save, keeps every unlocked key in place and unlocks exactly the click achievements now earned, and nothing else |
| Achievements.AchievementTracker.UnlockBySelector | Scripts/achievements.js:238-247 | for an element target, every entry whose selector matches is unlocked and nothing else; a non-element changes nothing |
| Achievements.AchievementToggle | Scripts/achievements.js:120-214 | nothing without items; otherwise the store's mode is what `load` leaves, the tracker's clicks are the loaded clicks, its lists are built from the items, and its unlocked keys are the loaded set followed only by click achievements the loaded clicks earn, all of which are unlocked |
| AchieveSummary.SanitizeProgress | Scripts/achieve.js:19-23 | finite clicks kept, else 0, with a falsy payload itself as the operand; an array kept, else [] |
| AchieveSummary.ReadLocal | Scripts/achieve.js:25-36 | no usable entry gives 0 clicks and nothing unlocked |
| AchieveSummary.ReadsWhatTrackerWrites | Scripts/achieve.js:25-36 | this page reads back exactly what the tracker on other pages stores |
| AchieveSummary.LoadProgress | Scripts/achieve.js:38-56 | server mode iff not a file page and the fetch succeeded; otherwise local mode with the local data |
| AchieveSummary.EventResult | Scripts/achieve.js:125-130 | a truthy progress payload is sanitised and a truthy mode is taken as it is; without a progress payload the local entry is read, and without a mode it is local |
| AchieveSummary.UnlockedCount | Scripts/achieve.js:72-91 | how many item keys are unlocked; `UnlockedCountBounds` bounds it by the total |
| AchieveSummary.UnlockedCountBounds | Scripts/achieve.js:72-91 | the count is at most the total, 0 iff none is unlocked, the total iff all are |
| AchieveSummary.Percentage | Scripts/achieve.js:108-112 | the percentage shown, 0 without items; exact half-up rounding (see Left out) |
| AchieveSummary.PercentageRounds | Scripts/achieve.js:108-112 | the percentage is the exact quotient 100·count/total rounded half up (the source rounds a double product, which differs at some half-points; see Left out) |
| AchieveSummary.PercentageBounds | Scripts/achieve.js:108-112 | the percentage lies in [0, 100], is 0 with nothing unlocked and 100 exactly from 99.5 % |
| AchieveSummary.PercentageMonotone | Scripts/achieve.js:108-112 | one more unlocked item never lowers the percentage |
| AchieveSummary.MarkItems | Scripts/achieve.js:76-91 | each item is marked unlocked iff its key is non-empty and in the set, and the count is their number |
| AchieveSummary.ModeLabel | Scripts/achieve.js:114-117 | 'Synkad' for the server mode, 'Lokal lagring' otherwise |
| AchieveSummary.UpdateUI | Scripts/achieve.js:66-123 | nothing without items; otherwise each item's state, count ≤ total, percentage in [0, 100], the mode label, and the empty message hidden iff something is unlocked |
| Widgets.FlippedAfterClick | Scripts/widgets.js:6-11 | a click flips the card iff the window is at most 768 px wide |
| Widgets.NextIndex | Scripts/widgets.js:82 | the next index stays in [0, n) |
| Widgets.PrevIndex | Scripts/widgets.js:87 | the previous index stays in [0, n) |
| Widgets.NextIndexValue | Scripts/widgets.js:82 | next is i + 1, wrapping to 0 after the last card |
| Widgets.PrevIndexValue | Scripts/widgets.js:87 | prev is i − 1, wrapping to the last card from 0 |
| Widgets.NextPrevInverse | Scripts/widgets.js:81-89 | next after prev, and prev after next, restore the index |
| Widgets.RoleFor | Scripts/widgets.js:67-79 | the class `updateCards` gives a card: active, then next, then prev, else none |
| Widgets.RolePlacement | Scripts/widgets.js:67-79 | exactly the current card is active; the next card gets 'next', the previous 'prev' (for two cards they coincide and 'next' wins); the rest get none |
| Widgets.Carousel.constructor | Scripts/widgets.js:61-65 | the cards as in the markup and index 0 |
| Widgets.Carousel.UpdateCards | Scripts/widgets.js:67-79 | after the loop each card carries exactly the class for its role, and only the current one is active |
| Widgets.Carousel.ShowNext | Scripts/widgets.js:81-84 | the index moves to the next card and the classes follow; without cards it becomes NaN |
| Widgets.Carousel.ShowPrev | Scripts/widgets.js:86-89 | the index moves to the previous card and the classes follow; without cards it becomes NaN |
| Widgets.Carousel.CardClick | Scripts/widgets.js:100-107 | clicking the active card changes nothing; another card becomes the current one |
| Widgets.PrevThenNext | Scripts/widgets.js:81-89 | prev then next leaves the carousel where it was |
| Widgets.SparanWrap | Scripts/widgets.js:112-131 | the link's label is its text and there is one letter span per character, showing it top and bottom |
| Widgets.TopText | Scripts/widgets.js:123-126 | one character per span |
| Widgets.SparanWrapSpellsText | Scripts/widgets.js:112-131 | the spans spell the text, with delays strictly increasing along it |
| NarrativeGame.WeaponOutcome | Scripts/spel.js:235-257 | only the spear leads to the quiz; sword and bow lead to "not worthy" |
| NarrativeGame.IsCorrectAnswer | Scripts/spel.js:343-353 | the answer lowercased and trimmed equals "kido" |
| NarrativeGame.AnswerIgnoresCaseAndPadding | Scripts/spel.js:343-353 | the quiz check does not depend on case or surrounding whitespace |
| NarrativeGame.TargetOutcome | Scripts/spel.js:451-456 | a target succeeds iff it is the drawn one; otherwise the second-chance screen |
| NarrativeGame.FindItWinnableIff | Scripts/spel.js:418-456 | with five targets and an index drawn from 0..11, "Find it" can be won iff the index is below 5 |
| NarrativeGame.AfterHit | Scripts/spel.js:898-919 | a hit lowers the health by one; victory iff it reaches 0 |
| NarrativeGame.Hits | Scripts/spel.js:898-919 | the screen after k hits; no target after victory |
| NarrativeGame.VictoryOnTenthHit | Scripts/spel.js:898-919 | from full health 10 the enemy survives nine hits and victory comes exactly on the tenth |
| NarrativeGame.Game.constructor | Scripts/spel.js:52-64 | the page's markup is stored and the one-shot starting listener attached |
| NarrativeGame.Game.StartGame | Scripts/spel.js:3-40 | a no-op once started; otherwise the die is shown, `started` set and `cta` removed, the markup recorded only when unset |
| NarrativeGame.Game.ContainerClick | Scripts/spel.js:63 | the one-shot listener starts the game once and is gone afterwards |
| NarrativeGame.Game.RollDice | Scripts/spel.js:78-99 | a roll in 1..6 on the die screen shows its result |
| NarrativeGame.Game.ContinueAfterRoll | Scripts/spel.js:101-139 | only a roll of at least 4 shows the continue button, which leads on |
| NarrativeGame.Game.GoDeeper | Scripts/spel.js:141-188 | "Gå djupare.." leads to the challenger |
| NarrativeGame.Game.ChooseWeapon | Scripts/spel.js:190-262 | the challenger screen moves to the weapon's outcome |
| NarrativeGame.Game.SubmitAnswer | Scripts/spel.js:289-365 | the quiz moves on iff the lower-cased, trimmed answer is "kido", else "not worthy" |
| NarrativeGame.Game.StartFindIt | Scripts/spel.js:392-461 | after the quiz or a miss, "Find it" starts with the drawn index |
| NarrativeGame.Game.ClickTarget | Scripts/spel.js:451-456 | one of the five targets leads to success or the second chance |
| NarrativeGame.Game.NextChallenge | Scripts/spel.js:463-487 | success leads to the last step |
| NarrativeGame.Game.StartFinalChallenge | Scripts/spel.js:552-688 | the final challenge starts with the enemy at health 10 |
| NarrativeGame.Game.HitEnemy | Scripts/spel.js:898-950 | each hit lowers the health; at 0 the victory screen with `cta` and `game-victory` |
| NarrativeGame.Game.ResetGame | Scripts/spel.js:962-985 | without stored markup nothing; otherwise the intro returns, `started` goes, `cta` comes and the listener is attached again |
| NarrativeGame.Game.Retry | Scripts/spel.js:121-128 | a retry or give-up click resets the game, and the same click restarts it at the die |
| NarrativeGame.PlayToVictory | Scripts/spel.js:3-950 | a roll of 4–6, the spear, the right answer and an index below 5 reach the victory screen |
| JsText.TrimStart | Scripts/achievements.js:226 | `trim` drops exactly the leading whitespace |
| JsText.TrimEnd | Scripts/achievements.js:226 | `trim` drops exactly the trailing whitespace |
| JsText.Trim | Scripts/programs.js:388 | `trim`: the leading whitespace dropped, then the trailing; its lemmas prove it a clean, idempotent slice |
| JsText.TrimIsSlice | Scripts/programs.js:388 | the trimmed text is a contiguous slice of the input |
| JsText.TrimEndsClean | Scripts/programs.js:388 | a trimmed text neither starts nor ends with whitespace |
| JsText.TrimOfTrimmed | Scripts/programs.js:388 | trimming text without surrounding whitespace changes nothing |
| JsText.TrimIdempotent | Scripts/achievements.js:226 | trimming twice is trimming once |
| JsText.LowerChar | Scripts/spel.js:349 | lower-casing maps 'A'..'Z' to 'a'..'z', never yields an ASCII capital, and keeps every character that is not an ASCII or Latin-1 capital |
| JsText.Lower | Scripts/spel.js:349 | lower-casing works character by character and keeps the length |
| JsText.LowerIdempotent | Scripts/programs.js:393 | lower-casing twice is lower-casing once |
| JsText.LowerTrimCommute | Scripts/spel.js:349 | lower-casing and trimming commute |
| JsText.LowerTrimStart | Scripts/spel.js:349 | lower-casing commutes with dropping leading whitespace |
| JsText.LowerTrimEnd | Scripts/spel.js:349 | lower-casing commutes with dropping trailing whitespace |
| JsText.DigitChar | Scripts/achievements.js:170-172 | a digit value is written as its character |
| JsText.DigitValue | Scripts/achievements.js:200 | a digit character's value writes back as that character |
| JsText.NatToString | Scripts/achievements.js:170-172 | a number is written as digits without a leading zero |
| JsText.IntToString | Scripts/achievements.js:170-172 | a negative number is written with '-' before its magnitude |
| JsText.NatToStringValue | Scripts/achievements.js:170-172 | the written digits read back as the number |
| JsText.NatToStringInjective | Scripts/achievements.js:170-172 | different numbers are written differently |
| JsText.IntToStringInjective | Scripts/achievements.js:170-172 | different integers are written differently |
| JsText.DigitPrefix | Scripts/achievements.js:200 | `parseInt` reads the longest prefix of digits |
| JsText.ParseInt | Scripts/achievements.js:189-200 | `Number.parseInt(s, 10)`: leading whitespace, an optional sign, the longest digit run; `None` (NaN) without a digit |
| JsText.ParseIntOfIntToString | Scripts/pattern-game.js:389-401 | `parseInt(String(i))` is i, so a stored high score reads back |
| JsText.ParseIntOfDigits | Scripts/achievements.js:189 | `parseInt` of digits is their decimal value |
| JsText.ParseIntOfMinus | Scripts/achievements.js:200 | `parseInt` of '-' and digits is the negated value |
| JsText.AllDigitsPrefix | Scripts/achievements.js:200 | a string of digits is read whole |
| JsText.Join | Scripts/programs.js:710 | joining one part gives that part |
| JsText.JoinSnoc | Scripts/programs.js:700-711 | joining one more part appends the separator and the part |
| JsText.JoinLength | Scripts/programs.js:971 | a join's length is the parts' lengths plus one separator between each pair |
| Json.Get | Scripts/achievements.js:33-34 | a property lookup finds the last member with the key, as both parsers keep the last duplicate, and fails iff no member has it |

## Left out

- Rendering, styling, sound, animations, confetti and particles are not modelled, and neither are the waiting times of `setTimeout`, `sleep` and `requestAnimationFrame`. A timer's effect is a method the caller invokes when it would fire.
- The random sources (`Math.random`, `crypto.getRandomValues`) are not modelled. The values they return are parameters: index oracles and uint32 values.
- `fetch`, `sendBeacon` and `localStorage` are not modelled; their outcomes are parameters: a fetched JSON value or none, success flags and a stored entry. The ordering of saves through the `pendingSave` promise chain is not modelled. Each save is one call, in the order the caller makes them.
- The server's threading lock, socket probing, argument parsing and the static file handler are not modelled. Each request is one sequential call, and a GET for any path other than the API is the opaque `StaticHandler` response.
- DevServer.ProgressServer.Post: a POST to any other path calls `super().do_POST()`, which `SimpleHTTPRequestHandler` does not define; the `AttributeError` ends the request without a response, modelled as `NoResponse`. A `Content-Length` header that is not a number is not modelled.
- DevServer.PyIntOfString: Python's `int()` also accepts underscores between digits and non-ASCII digits. The model reads ASCII digits after an optional '+' or '-'.
- Programs.CalcHumanYears: only whole-number and non-finite ages are modelled. Fractional ages go through floating-point rounding.
- Programs.FibonacciGenerator: the numbers are unbounded integers. JavaScript numbers lose precision beyond index 78.
- Programs.RunFizzBuzz: the warning for values over 5000 is written and then replaced in the same call. Only the final text is stated.
- `Number(...)` on a field's text is not modelled. Its result is a `JsNum` parameter: a whole number, a fraction or a non-finite value.
- `toLocaleString`, the dates on leaderboard entries, and the HTML templates of the leaderboard, the song output and the letter spans are not modelled. Dates and times are strings passed in.
- String lengths count code points. JavaScript counts UTF-16 units, which differ only for characters outside the Basic Multilingual Plane.
- `toLowerCase` is modelled for ASCII and Latin-1 letters. Other scripts' case mappings are not.
- The regular-expression split on runs of separators is modelled as a split on each separator followed by dropping empty fields. That gives the same names.
- PatternGame.PatternGame.StartGame: `addToSequence` draws the first colour at random. Here the colour is a parameter, and the sequence is set in one step.
- PatternGame.PatternGame.ResumeGame: requires a paused game. The source has no guard; its resume button only exists in the pause modal.
- PatternGame.PatternGame.constructor: a stored high score that does not parse is NaN in the source. Here it is `None`, which every later comparison treats as NaN does. The source's `parseInt(saved)` has no radix, so a stored text starting with "0x" or "0X" reads as hexadecimal there ("0x1A" gives 26) and as 0 here. A high score the game itself stored is written by `String`, which never produces that prefix.
- JsText.ParseInt: models `Number.parseInt(s, 10)`. The calls without a radix, `parseInt(betInput.value)` and `parseInt(depositInput.value)` in `Scripts/casino.js` and `parseInt(saved)` in `Scripts/pattern-game.js`, read a "0x" or "0X" after the optional sign as hexadecimal; the model does not. The casino methods take the already parsed value as a parameter.
- PatternGame: the sequence replay speed (`getSequenceDelay`), `displayLeaderboard`, the colour-blind toggle and the space-bar handler are presentation only and are not modelled.
- Casino.SlotMachine.FinishSpin: `Math.round(bet * value)` is the identity on the integer bets the controls allow. The 1.5 s out-of-money message is not modelled.
- Achievements.AchievementTracker.UnlockBySelector: `Element.closest` is given as the set of selectors that match. Invalid selectors, which make `closest` throw, are not modelled.
- Achievements: JavaScript `Set` membership for object values is by identity. Here it is by value, which agrees for the string keys the tracker adds. Numbers also differ: `JInt(1)` and `JFloat(1.0)` are two values here but one number in JavaScript, so a stored `unlocked` array holding both keeps both here and one in the browser.
- AchieveSummary.UpdateUI: the percentage is the exact quotient rounded half up, whereas `Math.round((unlockedCount / total) * 100)` rounds a double product. At some exact half-points the double falls just below the half and JavaScript rounds down: 23 of 40 gives 57 in the browser and 58 in the model, and so do, among others, 29/200, 57/200, 46/80, 69/120, 92/160, 113/200, 115/200, 138/240 and 161/280. Elsewhere the two agree.
- AchieveSummary.PercentageRounds: states the exact half-up rounding, not the double arithmetic, for the reason given for `UpdateUI`.
- AchieveSummary.UpdateUI: the `catch` path that re-renders from local storage when loading throws is not modelled separately. Its input is the `ReadLocal` result the model already covers.
- NarrativeGame.Game.RollDice: the 300 ms pause between the roll and the result is folded into one step.
- NarrativeGame: the enemy's and particles' movement, the custom cursor and the hover effects are floating-point animation and are not modelled.
- Programs: the love tester, the life calculator, the typing effect of the heading, the dice image, the Fibonacci `render` and the song's `showSong` wrapper are not part of this model.
- `Scripts/portfolio.js` and `Styles/Scripts/portfolio.js` are not part of this model. They hold the contact form's `fetch` and a menu toggle.
- PasswordGenerator.GeneratePassword: the JavaScript default arguments of `generate_password` (length 12, every class selected) are not modelled; the page passes all four arguments.
- PasswordGenerator.SwapIndex: computed on integers. The double product `r / 2^32 * (i + 1)` is exact, and so agrees, only while `i + 1 <= 2^21`.
- NarrativeGame.Game.HitEnemy: the victory screen's synthetic `gameElement.click()` 100 ms later is not modelled. On the page that click reaches `Achievements.AchievementTracker.DocumentClick` like any other click; the model does not connect the two scripts.
- JsText.IntToString: JavaScript's `String(n)` writes exponent form from 1e21 on, and numbers above 2^53 lose precision, so `JsText.ParseIntOfIntToString` holds in the browser only for safe integers. The model writes and reads every integer in plain decimal.
- PasswordGenerator: the page handler that reads the form, the clipboard copy and the strength display are DOM glue and are not modelled.
