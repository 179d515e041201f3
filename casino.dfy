/**
 * The slot machine of `Scripts/casino.js`: a 3x3 grid of symbols drawn from a bag of 150,
 * rows paid for by the number of lines bet on, columns always checked, and the player's
 * balance, line count and per-line bet kept as mutable state.
 */
module Casino {
  import opened Wrappers

  const MaxLines := 3
  const MinLines := 1
  const MaxBet := 10000
  const MinBet := 1
  const Rows := 3
  const Columns := 3
  const BagSize := 150

  datatype Symbol = Cherry | Lemon | Orange | Watermelon | Star | Diamond

  /** The symbols in the order `Object.entries(symbolCount)` visits them. */
  const Symbols: seq<Symbol> := [Cherry, Lemon, Orange, Watermelon, Star, Diamond]

  /** How many copies of each symbol the bag holds. */
  function Count(s: Symbol): nat {
    match s
    case Cherry => 30
    case Lemon => 28
    case Orange => 25
    case Watermelon => 25
    case Star => 22
    case Diamond => 20
  }

  /** What one winning line of three of a symbol pays per unit of bet. */
  function Value(s: Symbol): nat {
    match s
    case Cherry => 6
    case Lemon => 8
    case Orange => 16
    case Watermelon => 32
    case Star => 64
    case Diamond => 300
  }

  function Repeat(s: Symbol, n: nat): (r: seq<Symbol>)
    ensures |r| == n && forall k :: 0 <= k < n ==> r[k] == s
  {
    seq(n, _ => s)
  }

  /** The bag built from the first `k` symbols: each symbol repeated its count, in order. */
  function BagOf(k: nat): seq<Symbol>
    requires k <= |Symbols|
  {
    if k == 0 then [] else BagOf(k - 1) + Repeat(Symbols[k - 1], Count(Symbols[k - 1]))
  }

  /** The bag `generateSpin` draws from: every symbol repeated its count, 150 entries. */
  function Bag(): (r: seq<Symbol>)
    ensures |r| == BagSize
  {
    BagOfLength();
    BagOf(|Symbols|)
  }

  lemma BagOfLength()
    ensures |BagOf(|Symbols|)| == BagSize
  {
    assert |BagOf(1)| == 30;
    assert |BagOf(2)| == 58;
    assert |BagOf(3)| == 83;
    assert |BagOf(4)| == 108;
    assert |BagOf(5)| == 130;
  }

  /** Where a symbol sits in `Symbols`. */
  function Position(s: Symbol): (i: nat)
    ensures i < |Symbols|
  {
    match s
    case Cherry => 0
    case Lemon => 1
    case Orange => 2
    case Watermelon => 3
    case Star => 4
    case Diamond => 5
  }

  /** No symbol is listed twice: the symbol at index `i` is `s` exactly when `s` sits at `i`. */
  lemma PositionUnique(i: nat, s: Symbol)
    requires i < |Symbols|
    ensures Symbols[i] == s <==> Position(s) == i
  {
  }

  lemma BagOfUnfold(k: nat)
    requires 0 < k <= |Symbols|
    ensures BagOf(k) == BagOf(k - 1) + Repeat(Symbols[k - 1], Count(Symbols[k - 1]))
  {
  }

  /** The first `k` symbols' bag holds a symbol its count of times if it is among them, else never. */
  lemma {:induction false} BagOfContents(k: nat, s: Symbol)
    requires k <= |Symbols|
    ensures multiset(BagOf(k))[s] == if Position(s) < k then Count(s) else 0
  {
    if k > 0 {
      BagOfContents(k - 1, s);
      BagOfContentsStep(k, s);
    }
  }

  lemma BagOfContentsStep(k: nat, s: Symbol)
    requires 0 < k <= |Symbols|
    requires multiset(BagOf(k - 1))[s] == if Position(s) < k - 1 then Count(s) else 0
    ensures multiset(BagOf(k))[s] == if Position(s) < k then Count(s) else 0
  {
    var last := Symbols[k - 1];
    PositionUnique(k - 1, s);
    BagOfUnfold(k);
    BagStep(BagOf(k - 1), BagOf(k), last, s, k - 1, Position(s), Count(last), Count(s));
  }

  /** Appending a run of `c` copies of the `i`-th symbol extends the count from the first `i` symbols to `i + 1`. */
  lemma BagStep(prev: seq<Symbol>, next: seq<Symbol>, last: Symbol, s: Symbol, i: nat, p: nat, c: nat, cs: nat)
    requires next == prev + Repeat(last, c)
    requires multiset(prev)[s] == if p < i then cs else 0
    requires last == s ==> p == i && c == cs
    requires last != s ==> p != i
    ensures multiset(next)[s] == if p < i + 1 then cs else 0
  {
    RepeatMultiset(last, c);
    assert multiset(next) == multiset(prev) + multiset{}[last := c];
  }

  lemma {:induction false} RepeatMultiset(s: Symbol, n: nat)
    ensures multiset(Repeat(s, n)) == multiset{}[s := n]
  {
    if n > 0 {
      RepeatMultiset(s, n - 1);
      assert Repeat(s, n) == Repeat(s, n - 1) + [s];
    }
  }

  /** The bag holds exactly `Count(s)` copies of each symbol `s`. */
  lemma BagContents()
    ensures forall s :: multiset(Bag())[s] == Count(s)
  {
    forall s ensures multiset(Bag())[s] == Count(s) {
      BagOfContents(|Symbols|, s);
    }
  }

  /** The bag-building loops of `generateSpin`: each symbol pushed `Count` times, in order. */
  method BuildBag() returns (bag: seq<Symbol>)
    ensures bag == Bag()
    ensures forall s :: multiset(bag)[s] == Count(s)
  {
    bag := [];
    for k := 0 to |Symbols|
      invariant bag == BagOf(k)
    {
      var symbol := Symbols[k];
      for i := 0 to Count(symbol)
        invariant bag == BagOf(k) + Repeat(symbol, i)
      {
        bag := bag + [symbol];
      }
    }
    BagContents();
  }

  /** A spin result: `cols[c][r]` is the symbol in column `c`, row `r`. */
  predicate IsGrid(cols: seq<seq<Symbol>>) {
    |cols| == Columns && forall c :: 0 <= c < Columns ==> |cols[c]| == Rows
  }

  /** The bag with the entry at index `i` spliced out. */
  function Remove(bag: seq<Symbol>, i: nat): (r: seq<Symbol>)
    requires i < |bag|
    ensures |r| == |bag| - 1
  {
    bag[..i] + bag[i + 1..]
  }

  /** Taking entry `i` out leaves every other entry of the bag. */
  lemma RemoveMultiset(bag: seq<Symbol>, i: nat)
    requires i < |bag|
    ensures multiset(Remove(bag, i)) + multiset{bag[i]} == multiset(bag)
  {
    assert bag == bag[..i] + [bag[i]] + bag[i + 1..];
  }

  /** Whether an index oracle can serve `n` draws from a bag of `size`: the k-th pick is below `size - k`. */
  predicate PicksFit(picks: seq<nat>, size: nat) {
    forall k :: 0 <= k < |picks| ==> picks[k] + k < size
  }

  /** The symbols drawn one after another without replacement, the k-th at index `picks[k]` of what is left. */
  function Draw(bag: seq<Symbol>, picks: seq<nat>): (r: seq<Symbol>)
    requires PicksFit(picks, |bag|)
    ensures |r| == |picks|
  {
    if picks == [] then []
    else
      assert PicksFit(picks[1..], |bag| - 1) by {
        forall k | 0 <= k < |picks| - 1 ensures picks[1..][k] + k < |bag| - 1 {
          assert picks[k + 1] + (k + 1) < |bag|;
        }
      }
      [bag[picks[0]]] + Draw(Remove(bag, picks[0]), picks[1..])
  }

  /** The draws of one column: a symbol taken out of the remaining bag per pick. */
  method DrawColumn(bag: seq<Symbol>, picks: seq<nat>) returns (col: seq<Symbol>)
    requires PicksFit(picks, |bag|)
    ensures col == Draw(bag, picks)
  {
    col := [];
    var currentSymbols := bag;
    for r := 0 to |picks|
      invariant |currentSymbols| == |bag| - r
      invariant PicksFit(picks[r..], |currentSymbols|)
      invariant col + Draw(currentSymbols, picks[r..]) == Draw(bag, picks)
    {
      var randomIndex := picks[r];
      assert picks[r..][0] == randomIndex && picks[r..][1..] == picks[r + 1..];
      col := col + [currentSymbols[randomIndex]];
      currentSymbols := Remove(currentSymbols, randomIndex);
    }
    assert picks[|picks|..] == [];
  }

  /** The column loop of `generateSpin`: each column drawn from a fresh copy of `bag`. */
  method DrawColumns(bag: seq<Symbol>, picks: seq<seq<nat>>) returns (cols: seq<seq<Symbol>>)
    requires |picks| == Columns
    requires forall c :: 0 <= c < Columns ==> |picks[c]| == Rows && PicksFit(picks[c], |bag|)
    ensures IsGrid(cols)
    ensures forall c :: 0 <= c < Columns ==> cols[c] == Draw(bag, picks[c])
  {
    cols := [];
    for c := 0 to Columns
      invariant |cols| == c
      invariant forall d :: 0 <= d < c ==> cols[d] == Draw(bag, picks[d])
    {
      var col := DrawColumn(bag, picks[c]);
      ReplaceAppend(cols, col);
      cols := cols + [col];
    }
  }

  lemma ReplaceAppend<T>(s: seq<T>, x: T)
    ensures forall d :: 0 <= d < |s| ==> (s + [x])[d] == s[d]
    ensures (s + [x])[|s|] == x
  {
  }

  /**
   * `generateSpin`: three columns, each drawn from a fresh copy of the bag, three symbols
   * without replacement. `picks[c][r]` stands for `Math.floor(Math.random() * currentSymbols.length)`.
   */
  method GenerateSpin(picks: seq<seq<nat>>) returns (cols: seq<seq<Symbol>>)
    requires |picks| == Columns
    requires forall c :: 0 <= c < Columns ==> |picks[c]| == Rows && PicksFit(picks[c], BagSize)
    ensures IsGrid(cols)
    ensures forall c :: 0 <= c < Columns ==> cols[c] == Draw(Bag(), picks[c])
  {
    var allSymbols := BuildBag();
    cols := DrawColumns(allSymbols, picks);
  }

  /** Drawing without replacement takes each entry of the bag at most once. */
  lemma {:induction false} DrawWithoutReplacement(bag: seq<Symbol>, picks: seq<nat>)
    requires PicksFit(picks, |bag|)
    ensures multiset(Draw(bag, picks)) <= multiset(bag)
  {
    if picks != [] {
      var rest := Remove(bag, picks[0]);
      assert PicksFit(picks[1..], |rest|) by {
        forall k | 0 <= k < |picks| - 1 ensures picks[1..][k] + k < |rest| {
          assert picks[k + 1] + (k + 1) < |bag|;
        }
      }
      DrawWithoutReplacement(rest, picks[1..]);
      RemoveMultiset(bag, picks[0]);
    }
  }

  /** A column never shows a symbol more often than the bag holds it. */
  lemma DrawRespectsCounts(picks: seq<nat>)
    requires PicksFit(picks, BagSize)
    ensures forall s :: multiset(Draw(Bag(), picks))[s] <= Count(s)
  {
    DrawWithoutReplacement(Bag(), picks);
    BagContents();
  }

  /** Row `line` wins when all three columns show the same symbol in that row. */
  predicate RowWins(cols: seq<seq<Symbol>>, line: nat)
    requires IsGrid(cols) && line < Rows
  {
    cols[1][line] == cols[0][line] && cols[2][line] == cols[0][line]
  }

  /** Column `c` wins when its three rows show the same symbol. */
  predicate ColumnWins(cols: seq<seq<Symbol>>, c: nat)
    requires IsGrid(cols) && c < Columns
  {
    cols[c][1] == cols[c][0] && cols[c][2] == cols[c][0]
  }

  /** One paid line in the win message: its 1-based number, its symbol and what it pays. */
  datatype WinDetail = WinDetail(number: nat, symbol: Symbol, winnings: nat)

  /** The message entry for winning row `line` (shown 1-based). */
  function LineDetail(cols: seq<seq<Symbol>>, line: nat, bet: nat): WinDetail
    requires IsGrid(cols) && line < Rows
  {
    WinDetail(line + 1, cols[0][line], bet * Value(cols[0][line]))
  }

  /** The message entry for winning column `c` (shown 1-based). */
  function ColumnDetail(cols: seq<seq<Symbol>>, c: nat, bet: nat): WinDetail
    requires IsGrid(cols) && c < Columns
  {
    WinDetail(c + 1, cols[c][0], bet * Value(cols[c][0]))
  }

  function SumWinnings(details: seq<WinDetail>): nat {
    if details == [] then 0 else details[0].winnings + SumWinnings(details[1..])
  }

  lemma {:induction false} SumWinningsAppend(a: seq<WinDetail>, b: seq<WinDetail>)
    ensures SumWinnings(a + b) == SumWinnings(a) + SumWinnings(b)
  {
    if a == [] {
      assert a + b == b;
    } else {
      assert (a + b)[0] == a[0] && (a + b)[1..] == a[1..] + b;
      SumWinningsAppend(a[1..], b);
    }
  }

  /** What rows `0 .. lines-1` pay together. */
  function RowsTotal(cols: seq<seq<Symbol>>, lines: nat, bet: nat): nat
    requires IsGrid(cols) && lines <= Rows
  {
    if lines == 0 then 0
    else RowsTotal(cols, lines - 1, bet) + (if RowWins(cols, lines - 1) then bet * Value(cols[0][lines - 1]) else 0)
  }

  /** What columns `0 .. n-1` pay together. */
  function ColumnsTotal(cols: seq<seq<Symbol>>, n: nat, bet: nat): nat
    requires IsGrid(cols) && n <= Columns
  {
    if n == 0 then 0
    else ColumnsTotal(cols, n - 1, bet) + (if ColumnWins(cols, n - 1) then bet * Value(cols[n - 1][0]) else 0)
  }

  /** The inner loop over a row: every later column shows the first column's symbol. */
  method RowMatches(cols: seq<seq<Symbol>>, line: nat) returns (won: bool)
    requires IsGrid(cols) && line < Rows
    ensures won <==> RowWins(cols, line)
  {
    var symbol := cols[0][line];
    won := true;
    for col := 1 to Columns
      invariant won <==> forall d :: 1 <= d < col ==> cols[d][line] == symbol
    {
      if cols[col][line] != symbol {
        won := false;
        break;
      }
    }
  }

  /** The inner loop over a column: every later row shows the first row's symbol. */
  method ColumnMatches(cols: seq<seq<Symbol>>, c: nat) returns (won: bool)
    requires IsGrid(cols) && c < Columns
    ensures won <==> ColumnWins(cols, c)
  {
    var symbol := cols[c][0];
    won := true;
    for row := 1 to Rows
      invariant won <==> forall r :: 1 <= r < row ==> cols[c][r] == symbol
    {
      if cols[c][row] != symbol {
        won := false;
        break;
      }
    }
  }

  /** The rows among `0 .. n-1` that hold three of a kind, in increasing order. */
  function WinningRows(cols: seq<seq<Symbol>>, n: nat): seq<nat>
    requires IsGrid(cols) && n <= Rows
  {
    if n == 0 then [] else WinningRows(cols, n - 1) + if RowWins(cols, n - 1) then [n - 1] else []
  }

  /** The message entries of the winning rows among `0 .. n-1`. */
  function RowDetails(cols: seq<seq<Symbol>>, n: nat, bet: nat): seq<WinDetail>
    requires IsGrid(cols) && n <= Rows
  {
    if n == 0 then [] else RowDetails(cols, n - 1, bet) + if RowWins(cols, n - 1) then [LineDetail(cols, n - 1, bet)] else []
  }

  /** The columns among `0 .. n-1` that hold three of a kind, in increasing order. */
  function WinningColumns(cols: seq<seq<Symbol>>, n: nat): seq<nat>
    requires IsGrid(cols) && n <= Columns
  {
    if n == 0 then [] else WinningColumns(cols, n - 1) + if ColumnWins(cols, n - 1) then [n - 1] else []
  }

  /** The message entries of the winning columns among `0 .. n-1`. */
  function ColumnDetails(cols: seq<seq<Symbol>>, n: nat, bet: nat): seq<WinDetail>
    requires IsGrid(cols) && n <= Columns
  {
    if n == 0 then [] else ColumnDetails(cols, n - 1, bet) + if ColumnWins(cols, n - 1) then [ColumnDetail(cols, n - 1, bet)] else []
  }

  /** A strictly increasing list of numbers below `bound`. */
  predicate IncreasingBelow(xs: seq<nat>, bound: nat) {
    (forall i, j :: 0 <= i < j < |xs| ==> xs[i] < xs[j]) && forall i :: 0 <= i < |xs| ==> xs[i] < bound
  }

  /** Appending a number above every entry keeps a list increasing. */
  lemma IncreasingSnoc(xs: seq<nat>, bound: nat, x: nat)
    requires IncreasingBelow(xs, bound) && bound <= x
    ensures IncreasingBelow(xs + [x], x + 1)
  {
  }

  /** The winning rows are exactly the rows below `n` that win, listed in increasing order. */
  lemma {:induction false} WinningRowsExact(cols: seq<seq<Symbol>>, n: nat)
    requires IsGrid(cols) && n <= Rows
    ensures forall l: nat :: l in WinningRows(cols, n) <==> l < n && RowWins(cols, l)
    ensures IncreasingBelow(WinningRows(cols, n), n)
  {
    if n > 0 {
      WinningRowsExact(cols, n - 1);
      if RowWins(cols, n - 1) {
        IncreasingSnoc(WinningRows(cols, n - 1), n - 1, n - 1);
      }
    }
  }

  /** The winning columns are exactly the columns below `n` that win, listed in increasing order. */
  lemma {:induction false} WinningColumnsExact(cols: seq<seq<Symbol>>, n: nat)
    requires IsGrid(cols) && n <= Columns
    ensures forall c: nat :: c in WinningColumns(cols, n) <==> c < n && ColumnWins(cols, c)
    ensures IncreasingBelow(WinningColumns(cols, n), n)
  {
    if n > 0 {
      WinningColumnsExact(cols, n - 1);
      if ColumnWins(cols, n - 1) {
        IncreasingSnoc(WinningColumns(cols, n - 1), n - 1, n - 1);
      }
    }
  }

  /** Entry `i` of the row messages describes the `i`-th winning row. */
  lemma {:induction false} RowDetailsDescribe(cols: seq<seq<Symbol>>, n: nat, bet: nat)
    requires IsGrid(cols) && n <= Rows
    ensures |RowDetails(cols, n, bet)| == |WinningRows(cols, n)|
    ensures forall i :: 0 <= i < |RowDetails(cols, n, bet)| ==>
      WinningRows(cols, n)[i] < Rows && RowDetails(cols, n, bet)[i] == LineDetail(cols, WinningRows(cols, n)[i], bet)
  {
    if n > 0 {
      RowDetailsDescribe(cols, n - 1, bet);
      var d, w := RowDetails(cols, n - 1, bet), WinningRows(cols, n - 1);
      if RowWins(cols, n - 1) {
        var x := LineDetail(cols, n - 1, bet);
        assert RowDetails(cols, n, bet) == d + [x];
        assert WinningRows(cols, n) == w + [n - 1];
        forall i | 0 <= i < |d| + 1
          ensures (w + [n - 1])[i] < Rows && (d + [x])[i] == LineDetail(cols, (w + [n - 1])[i], bet)
        {
          if i < |d| {
            assert (d + [x])[i] == d[i] && (w + [n - 1])[i] == w[i];
          }
        }
      } else {
        assert RowDetails(cols, n, bet) == d && WinningRows(cols, n) == w;
      }
    }
  }

  /** Entry `i` of the column messages describes the `i`-th winning column. */
  lemma {:induction false} ColumnDetailsDescribe(cols: seq<seq<Symbol>>, n: nat, bet: nat)
    requires IsGrid(cols) && n <= Columns
    ensures |ColumnDetails(cols, n, bet)| == |WinningColumns(cols, n)|
    ensures forall i :: 0 <= i < |ColumnDetails(cols, n, bet)| ==>
      WinningColumns(cols, n)[i] < Columns && ColumnDetails(cols, n, bet)[i] == ColumnDetail(cols, WinningColumns(cols, n)[i], bet)
  {
    if n > 0 {
      ColumnDetailsDescribe(cols, n - 1, bet);
      var d, w := ColumnDetails(cols, n - 1, bet), WinningColumns(cols, n - 1);
      if ColumnWins(cols, n - 1) {
        var x := ColumnDetail(cols, n - 1, bet);
        assert ColumnDetails(cols, n, bet) == d + [x];
        assert WinningColumns(cols, n) == w + [n - 1];
        forall i | 0 <= i < |d| + 1
          ensures (w + [n - 1])[i] < Columns && (d + [x])[i] == ColumnDetail(cols, (w + [n - 1])[i], bet)
        {
          if i < |d| {
            assert (d + [x])[i] == d[i] && (w + [n - 1])[i] == w[i];
          }
        }
      } else {
        assert ColumnDetails(cols, n, bet) == d && WinningColumns(cols, n) == w;
      }
    }
  }

  /** The row messages pay the rows' total. */
  lemma {:induction false} RowDetailsPay(cols: seq<seq<Symbol>>, n: nat, bet: nat)
    requires IsGrid(cols) && n <= Rows
    ensures SumWinnings(RowDetails(cols, n, bet)) == RowsTotal(cols, n, bet)
  {
    if n > 0 {
      RowDetailsPay(cols, n - 1, bet);
      var extra := if RowWins(cols, n - 1) then [LineDetail(cols, n - 1, bet)] else [];
      SumWinningsAppend(RowDetails(cols, n - 1, bet), extra);
      assert SumWinnings(extra) == if RowWins(cols, n - 1) then bet * Value(cols[0][n - 1]) else 0;
    }
  }

  /** The column messages pay the columns' total. */
  lemma {:induction false} ColumnDetailsPay(cols: seq<seq<Symbol>>, n: nat, bet: nat)
    requires IsGrid(cols) && n <= Columns
    ensures SumWinnings(ColumnDetails(cols, n, bet)) == ColumnsTotal(cols, n, bet)
  {
    if n > 0 {
      ColumnDetailsPay(cols, n - 1, bet);
      var extra := if ColumnWins(cols, n - 1) then [ColumnDetail(cols, n - 1, bet)] else [];
      SumWinningsAppend(ColumnDetails(cols, n - 1, bet), extra);
      assert SumWinnings(extra) == if ColumnWins(cols, n - 1) then bet * Value(cols[n - 1][0]) else 0;
    }
  }

  /** The row half of `checkWinningLines`: rows `0 .. lines-1`, in order. */
  method CheckRows(cols: seq<seq<Symbol>>, lines: nat, bet: nat)
    returns (winningLines: seq<nat>, winDetails: seq<WinDetail>)
    requires IsGrid(cols) && lines <= Rows
    ensures winningLines == WinningRows(cols, lines) && winDetails == RowDetails(cols, lines, bet)
    ensures forall l: nat :: l in winningLines <==> l < lines && RowWins(cols, l)
    ensures IncreasingBelow(winningLines, lines)
    ensures |winDetails| == |winningLines|
    ensures forall i :: 0 <= i < |winDetails| ==>
      winningLines[i] < Rows && winDetails[i] == LineDetail(cols, winningLines[i], bet)
    ensures SumWinnings(winDetails) == RowsTotal(cols, lines, bet)
  {
    winningLines, winDetails := [], [];
    for line := 0 to lines
      invariant winningLines == WinningRows(cols, line) && winDetails == RowDetails(cols, line, bet)
    {
      var won := RowMatches(cols, line);
      if won {
        winningLines := winningLines + [line];
        winDetails := winDetails + [LineDetail(cols, line, bet)];
      }
    }
    WinningRowsExact(cols, lines);
    RowDetailsDescribe(cols, lines, bet);
    RowDetailsPay(cols, lines, bet);
  }

  /** The column half of `checkWinningLines`: every column, whatever the number of lines. */
  method CheckColumns(cols: seq<seq<Symbol>>, bet: nat)
    returns (winningColumns: seq<nat>, columnWinDetails: seq<WinDetail>)
    requires IsGrid(cols)
    ensures winningColumns == WinningColumns(cols, Columns) && columnWinDetails == ColumnDetails(cols, Columns, bet)
    ensures forall c: nat :: c in winningColumns <==> c < Columns && ColumnWins(cols, c)
    ensures IncreasingBelow(winningColumns, Columns)
    ensures |columnWinDetails| == |winningColumns|
    ensures forall i :: 0 <= i < |columnWinDetails| ==>
      winningColumns[i] < Columns && columnWinDetails[i] == ColumnDetail(cols, winningColumns[i], bet)
    ensures SumWinnings(columnWinDetails) == ColumnsTotal(cols, Columns, bet)
  {
    winningColumns, columnWinDetails := [], [];
    for col := 0 to Columns
      invariant winningColumns == WinningColumns(cols, col) && columnWinDetails == ColumnDetails(cols, col, bet)
    {
      var won := ColumnMatches(cols, col);
      if won {
        winningColumns := winningColumns + [col];
        columnWinDetails := columnWinDetails + [ColumnDetail(cols, col, bet)];
      }
    }
    WinningColumnsExact(cols, Columns);
    ColumnDetailsDescribe(cols, Columns, bet);
    ColumnDetailsPay(cols, Columns, bet);
  }

  /**
   * `checkWinningLines`: the first `lines` rows and every column are checked; each line of
   * three pays the per-line bet times the symbol's value, and the total is their sum.
   */
  method CheckWinningLines(cols: seq<seq<Symbol>>, lines: nat, bet: nat)
    returns (winningLines: seq<nat>, totalWinnings: nat, winDetails: seq<WinDetail>,
             winningColumns: seq<nat>, columnWinDetails: seq<WinDetail>)
    requires IsGrid(cols) && lines <= MaxLines
    ensures forall l: nat :: l in winningLines <==> l < lines && RowWins(cols, l)
    ensures forall c: nat :: c in winningColumns <==> c < Columns && ColumnWins(cols, c)
    ensures |winDetails| == |winningLines| && |columnWinDetails| == |winningColumns|
    ensures forall i :: 0 <= i < |winDetails| ==>
      winningLines[i] < Rows && winDetails[i] == LineDetail(cols, winningLines[i], bet)
    ensures forall i :: 0 <= i < |columnWinDetails| ==>
      winningColumns[i] < Columns && columnWinDetails[i] == ColumnDetail(cols, winningColumns[i], bet)
    ensures totalWinnings == SumWinnings(winDetails + columnWinDetails)
    ensures totalWinnings == RowsTotal(cols, lines, bet) + ColumnsTotal(cols, Columns, bet)
  {
    winningLines, winDetails := CheckRows(cols, lines, bet);
    winningColumns, columnWinDetails := CheckColumns(cols, bet);
    SumWinningsAppend(winDetails, columnWinDetails);
    totalWinnings := SumWinnings(winDetails) + SumWinnings(columnWinDetails);
  }

  /** Betting on more lines never pays less for the same grid and bet. */
  lemma {:induction false} RowsTotalMonotone(cols: seq<seq<Symbol>>, fewer: nat, more: nat, bet: nat)
    requires IsGrid(cols) && fewer <= more <= Rows
    ensures RowsTotal(cols, fewer, bet) <= RowsTotal(cols, more, bet)
  {
    if fewer < more {
      RowsTotalMonotone(cols, fewer, more - 1, bet);
    }
  }

  /** A spin pays nothing exactly when no paid row and no column holds three of a kind. */
  lemma {:induction false} NothingWonIffNoLine(cols: seq<seq<Symbol>>, lines: nat, bet: nat)
    requires IsGrid(cols) && lines <= Rows && bet >= 1
    ensures RowsTotal(cols, lines, bet) + ColumnsTotal(cols, Columns, bet) == 0
      <==> (forall l :: 0 <= l < lines ==> !RowWins(cols, l)) && (forall c :: 0 <= c < Columns ==> !ColumnWins(cols, c))
  {
    RowsTotalZero(cols, lines, bet);
    ColumnsTotalZero(cols, Columns, bet);
  }

  lemma {:induction false} RowsTotalZero(cols: seq<seq<Symbol>>, lines: nat, bet: nat)
    requires IsGrid(cols) && lines <= Rows && bet >= 1
    ensures RowsTotal(cols, lines, bet) == 0 <==> forall l :: 0 <= l < lines ==> !RowWins(cols, l)
  {
    if lines > 0 {
      RowsTotalZero(cols, lines - 1, bet);
    }
  }

  lemma {:induction false} ColumnsTotalZero(cols: seq<seq<Symbol>>, n: nat, bet: nat)
    requires IsGrid(cols) && n <= Columns && bet >= 1
    ensures ColumnsTotal(cols, n, bet) == 0 <==> forall c :: 0 <= c < n ==> !ColumnWins(cols, c)
  {
    if n > 0 {
      ColumnsTotalZero(cols, n - 1, bet);
    }
  }

  /** No spin pays more than every row and column paying the top symbol. */
  lemma WinningsBound(cols: seq<seq<Symbol>>, lines: nat, bet: nat)
    requires IsGrid(cols) && lines <= Rows
    ensures RowsTotal(cols, lines, bet) <= lines * (bet * Value(Diamond))
    ensures ColumnsTotal(cols, Columns, bet) <= Columns * (bet * Value(Diamond))
  {
    RowsTotalBound(cols, lines, bet);
    ColumnsTotalBound(cols, Columns, bet);
  }

  /** No line pays more than a line of diamonds. */
  lemma PayAtMostTop(bet: nat, s: Symbol)
    ensures bet * Value(s) <= bet * Value(Diamond)
  {
    assert bet * Value(Diamond) - bet * Value(s) == bet * (Value(Diamond) - Value(s));
  }

  lemma {:induction false} RowsTotalBound(cols: seq<seq<Symbol>>, lines: nat, bet: nat)
    requires IsGrid(cols) && lines <= Rows
    ensures RowsTotal(cols, lines, bet) <= lines * (bet * Value(Diamond))
  {
    if lines > 0 {
      RowsTotalBound(cols, lines - 1, bet);
      PayAtMostTop(bet, cols[0][lines - 1]);
      var top := bet * Value(Diamond);
      assert (lines - 1) * top + top == lines * top;
    }
  }

  lemma {:induction false} ColumnsTotalBound(cols: seq<seq<Symbol>>, n: nat, bet: nat)
    requires IsGrid(cols) && n <= Columns
    ensures ColumnsTotal(cols, n, bet) <= n * (bet * Value(Diamond))
  {
    if n > 0 {
      ColumnsTotalBound(cols, n - 1, bet);
      PayAtMostTop(bet, cols[n - 1][0]);
      var top := bet * Value(Diamond);
      assert (n - 1) * top + top == n * top;
    }
  }

  /** The position of a cell in the flat list of slot cells: column-major, `col * rows + row`. */
  function CellIndex(col: nat, row: nat): nat
  {
    col * Rows + row
  }

  /** The cell index is a one-to-one numbering of the nine cells by 0..8. */
  lemma CellIndexBijective(col: nat, row: nat)
    requires col < Columns && row < Rows
    ensures CellIndex(col, row) < Columns * Rows
    ensures CellIndex(col, row) / Rows == col && CellIndex(col, row) % Rows == row
  {
  }

  /** The game state of the slot machine page: the module-level variables of the script. */
  class SlotMachine {
    var balance: int
    var currentLines: int
    var currentBet: int
    var isSpinning: bool

    /** Lines and bet stay within their limits and the balance never goes negative. */
    ghost predicate Valid()
      reads this
    {
      MinLines <= currentLines <= MaxLines && MinBet <= currentBet <= MaxBet && balance >= 0
    }

    function TotalBet(): int
      reads this
    {
      currentBet * currentLines
    }

    constructor ()
      ensures Valid()
      ensures balance == 0 && currentLines == 1 && currentBet == 100 && !isSpinning
    {
      balance, currentLines, currentBet, isSpinning := 0, 1, 100, false;
    }

    /** The lines "-" button. */
    method DecreaseLines()
      requires Valid()
      modifies this
      ensures Valid()
      ensures currentLines == if old(currentLines) > MinLines then old(currentLines) - 1 else old(currentLines)
      ensures balance == old(balance) && currentBet == old(currentBet) && isSpinning == old(isSpinning)
    {
      if currentLines > MinLines {
        currentLines := currentLines - 1;
      }
    }

    /** The lines "+" button. */
    method IncreaseLines()
      requires Valid()
      modifies this
      ensures Valid()
      ensures currentLines == if old(currentLines) < MaxLines then old(currentLines) + 1 else old(currentLines)
      ensures balance == old(balance) && currentBet == old(currentBet) && isSpinning == old(isSpinning)
    {
      if currentLines < MaxLines {
        currentLines := currentLines + 1;
      }
    }

    /** The bet "-" button: 50 less, but not below the minimum. */
    method DecreaseBet()
      requires Valid()
      modifies this
      ensures Valid()
      ensures currentBet == if old(currentBet) > MinBet then Max(MinBet, old(currentBet) - 50) else old(currentBet)
      ensures balance == old(balance) && currentLines == old(currentLines) && isSpinning == old(isSpinning)
    {
      if currentBet > MinBet {
        currentBet := Max(MinBet, currentBet - 50);
      }
    }

    /** The bet "+" button: 100 more, but not above the maximum. */
    method IncreaseBet()
      requires Valid()
      modifies this
      ensures Valid()
      ensures currentBet == if old(currentBet) < MaxBet then Min(MaxBet, old(currentBet) + 100) else old(currentBet)
      ensures balance == old(balance) && currentLines == old(currentLines) && isSpinning == old(isSpinning)
    {
      if currentBet < MaxBet {
        currentBet := Min(MaxBet, currentBet + 100);
      }
    }

    /** Typing in the bet field: `parsed` is `parseInt` of the field, `None` for `NaN`. */
    method SetBetFromInput(parsed: Option<int>)
      requires Valid()
      modifies this
      ensures Valid()
      ensures parsed.None? ==> currentBet == old(currentBet)
      ensures parsed.Some? ==> currentBet == ClampBet(parsed.value)
      ensures balance == old(balance) && currentLines == old(currentLines) && isSpinning == old(isSpinning)
    {
      if parsed.Some? {
        currentBet := Max(MinBet, Min(MaxBet, parsed.value));
      }
    }

    /** The deposit dialog's confirm: `amount` is `parseInt` of the field, `None` for `NaN`. */
    method ConfirmDeposit(amount: Option<int>) returns (accepted: bool)
      requires Valid()
      modifies this
      ensures Valid()
      ensures accepted <==> amount.Some? && amount.value > 0
      ensures balance == if accepted then old(balance) + amount.value else old(balance)
      ensures currentLines == old(currentLines) && currentBet == old(currentBet) && isSpinning == old(isSpinning)
    {
      if amount.None? || amount.value <= 0 {
        return false;
      }
      balance := balance + amount.value;
      accepted := true;
    }

    /** The cash-out button: the whole balance is paid out when there is one. */
    method Cashout() returns (paidOut: int)
      requires Valid()
      modifies this
      ensures Valid()
      ensures paidOut == old(balance) && balance == 0
      ensures currentLines == old(currentLines) && currentBet == old(currentBet) && isSpinning == old(isSpinning)
    {
      paidOut := balance;
      if balance > 0 {
        balance := 0;
      }
    }

    /**
     * The checks `handleLeverPull` makes before the lever animation; only when they pass does
     * it go on to the spin, which checks again. Nothing changes here.
     */
    method LeverPull() returns (proceeds: bool)
      ensures proceeds <==> !isSpinning && balance >= TotalBet()
    {
      if isSpinning {
        return false;
      }
      var totalBet := currentBet * currentLines;
      proceeds := balance >= totalBet;
    }

    /**
     * The part of `handleSpin` before the animation: refused while a spin runs or when the
     * balance does not cover bet times lines; otherwise that stake is taken.
     */
    method BeginSpin() returns (started: bool)
      requires Valid()
      modifies this
      ensures Valid()
      ensures started <==> !old(isSpinning) && old(balance) >= old(TotalBet())
      ensures started ==> isSpinning && balance == old(balance) - old(TotalBet())
      ensures !started ==> isSpinning == old(isSpinning) && balance == old(balance)
      ensures currentLines == old(currentLines) && currentBet == old(currentBet)
    {
      if isSpinning {
        return false;
      }
      var totalBet := currentBet * currentLines;
      if balance < totalBet {
        return false;
      }
      isSpinning := true;
      balance := balance - totalBet;
      started := true;
    }

    /**
     * The part of `handleSpin` after the animation: the grid is checked with the lines and bet
     * current at that moment and the winnings are added.
     */
    method FinishSpin(cols: seq<seq<Symbol>>) returns (totalWinnings: nat)
      requires Valid() && isSpinning && IsGrid(cols)
      modifies this
      ensures Valid() && !isSpinning
      ensures totalWinnings == RowsTotal(cols, currentLines, currentBet) + ColumnsTotal(cols, Columns, currentBet)
      ensures balance == old(balance) + totalWinnings
      ensures currentLines == old(currentLines) && currentBet == old(currentBet)
    {
      var winningLines, winDetails, winningColumns, columnWinDetails;
      winningLines, totalWinnings, winDetails, winningColumns, columnWinDetails :=
        CheckWinningLines(cols, currentLines, currentBet);
      if |winningLines| > 0 || |winningColumns| > 0 {
        balance := balance + totalWinnings;
      } else {
        NothingWonIffNoLine(cols, currentLines, currentBet);
        assert forall l :: 0 <= l < currentLines ==> !RowWins(cols, l) by {
          forall l | 0 <= l < currentLines ensures !RowWins(cols, l) {
            assert l !in winningLines;
          }
        }
        assert forall c :: 0 <= c < Columns ==> !ColumnWins(cols, c) by {
          forall c | 0 <= c < Columns ensures !ColumnWins(cols, c) {
            assert c !in winningColumns;
          }
        }
      }
      isSpinning := false;
    }

    /**
     * A whole spin with nothing happening during the animation: the stake is taken, the grid
     * drawn, and the winnings for it paid.
     */
    method Spin(picks: seq<seq<nat>>) returns (started: bool, cols: seq<seq<Symbol>>, totalWinnings: nat)
      requires Valid()
      requires |picks| == Columns && forall c :: 0 <= c < Columns ==> |picks[c]| == Rows && PicksFit(picks[c], BagSize)
      modifies this
      ensures Valid() && isSpinning == old(isSpinning)
      ensures started <==> !old(isSpinning) && old(balance) >= old(TotalBet())
      ensures started ==>
        IsGrid(cols) && (forall c :: 0 <= c < Columns ==> cols[c] == Draw(Bag(), picks[c]))
        && totalWinnings == RowsTotal(cols, currentLines, currentBet) + ColumnsTotal(cols, Columns, currentBet)
        && balance == old(balance) - old(TotalBet()) + totalWinnings
      ensures !started ==> balance == old(balance) && totalWinnings == 0
      ensures currentLines == old(currentLines) && currentBet == old(currentBet)
    {
      cols, totalWinnings := [], 0;
      started := BeginSpin();
      if started {
        cols := GenerateSpin(picks);
        totalWinnings := FinishSpin(cols);
      }
    }
  }

  function Max(a: int, b: int): int { if a >= b then a else b }
  function Min(a: int, b: int): int { if a <= b then a else b }

  /** The bet a typed value becomes: clamped into `[MinBet, MaxBet]`. */
  function ClampBet(v: int): (r: int)
    ensures MinBet <= r <= MaxBet
    ensures MinBet <= v <= MaxBet ==> r == v
    ensures v < MinBet ==> r == MinBet
    ensures v > MaxBet ==> r == MaxBet
  {
    Max(MinBet, Min(MaxBet, v))
  }
}
