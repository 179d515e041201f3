/**
 * The page widgets of `Scripts/widgets.js`: the mobile flip cards, the glass card stack
 * (a carousel whose cards get the `active`, `next` and `prev` classes) and the stairway
 * links whose text is wrapped letter by letter.
 */
module Widgets {
  import opened Wrappers

  // ---------------------------------------------------------------- flip cards

  /** The widest viewport, in CSS pixels, on which a click flips a card. */
  const MobileWidth := 768

  /** A click on a flip card toggles `flipped`, but only on a mobile-width viewport. */
  function FlippedAfterClick(flipped: bool, innerWidth: int): (r: bool)
    ensures r != flipped <==> innerWidth <= MobileWidth
  {
    if innerWidth <= MobileWidth then !flipped else flipped
  }

  // ---------------------------------------------------------------- the card stack

  datatype Role = Active | Next | Prev

  /** The index after `showNext`. */
  function NextIndex(current: nat, n: nat): (r: nat)
    requires n > 0
    ensures r < n
  {
    (current + 1) % n
  }

  /** The index after `showPrev`. */
  function PrevIndex(current: nat, n: nat): (r: nat)
    requires n > 0
    ensures r < n
  {
    (current - 1 + n) % n
  }

  /** Moving forward wraps from the last card to the first. */
  lemma NextIndexValue(current: nat, n: nat)
    requires current < n
    ensures NextIndex(current, n) == if current + 1 < n then current + 1 else 0
  {
    if current + 1 == n {
      assert (current + 1) % n == n % n == 0;
    }
  }

  /** Moving back wraps from the first card to the last. */
  lemma PrevIndexValue(current: nat, n: nat)
    requires current < n
    ensures PrevIndex(current, n) == if current > 0 then current - 1 else n - 1
  {
    if current > 0 {
      var a := current - 1;
      assert (a + n) % n == a by {
        assert a + n == 1 * n + a;
      }
    }
  }

  /** Next undoes prev and prev undoes next. */
  lemma NextPrevInverse(current: nat, n: nat)
    requires current < n
    ensures PrevIndex(NextIndex(current, n), n) == current
    ensures NextIndex(PrevIndex(current, n), n) == current
  {
    NextIndexValue(current, n);
    PrevIndexValue(current, n);
    NextIndexValue(PrevIndex(current, n), n);
    PrevIndexValue(NextIndex(current, n), n);
  }

  /** The class `updateCards` gives card `index`: active first, then next, then prev. */
  function RoleFor(index: nat, current: nat, n: nat): Option<Role>
    requires n > 0
  {
    if index == current then Some(Active)
    else if index == NextIndex(current, n) then Some(Next)
    else if index == PrevIndex(current, n) then Some(Prev)
    else None
  }

  /**
   * Exactly the current card is active; the card after it is `next` whenever there are two
   * or more cards; the card before it is `prev` when there are three or more, and with two
   * cards the single other card is `next`, which takes precedence.
   */
  lemma RolePlacement(current: nat, n: nat)
    requires current < n
    ensures forall i :: 0 <= i < n ==> (RoleFor(i, current, n) == Some(Active) <==> i == current)
    ensures n >= 2 ==> RoleFor(NextIndex(current, n), current, n) == Some(Next)
    ensures n >= 3 ==> RoleFor(PrevIndex(current, n), current, n) == Some(Prev)
    ensures n == 2 ==> PrevIndex(current, n) == NextIndex(current, n)
    ensures forall i :: 0 <= i < n && i != current && i != NextIndex(current, n) && i != PrevIndex(current, n) ==>
      RoleFor(i, current, n) == None
  {
    NextIndexValue(current, n);
    PrevIndexValue(current, n);
  }

  /** The classes of the three roles a card carries; `None` carries none of them. */
  function RoleClasses(r: Option<Role>): set<Role> {
    if r.Some? then {r.value} else {}
  }

  /**
   * The card stack. `index` is `currentIndex`; `None` stands for the `NaN` that the modulo by
   * zero cards gives. `cards[i]` holds which of `active`, `next` and `prev` card `i` carries.
   */
  class Carousel {
    const n: nat
    const cards: array<set<Role>>
    var index: Option<nat>

    predicate Valid()
      reads this
    {
      cards.Length == n && (n > 0 ==> index.Some? && index.value < n)
    }

    /** The page loads with `currentIndex = 0` and the cards' classes from the markup. */
    constructor(markup: seq<set<Role>>)
      ensures Valid() && n == |markup| && fresh(cards) && cards[..] == markup && index == Some(0)
    {
      n := |markup|;
      cards := new set<Role>[|markup|](i requires 0 <= i < |markup| => markup[i]);
      index := Some(0);
    }

    /** The classes every card carries after `updateCards`. */
    predicate Shown()
      reads this, cards
      requires Valid()
    {
      forall i :: 0 <= i < n ==> cards[i] == RoleClasses(RoleFor(i, index.value, n))
    }

    /** `updateCards`: each card loses the three classes and gains the one its position calls for. */
    method UpdateCards()
      requires Valid()
      modifies cards
      ensures Valid() && Shown()
      ensures n > 0 ==> forall i :: 0 <= i < n ==> (Active in cards[i] <==> i == index.value)
    {
      for i := 0 to n
        invariant forall j :: 0 <= j < i ==> cards[j] == RoleClasses(RoleFor(j, index.value, n))
      {
        var role := if i == index.value then Some(Active)
          else if i == (index.value + 1) % n then Some(Next)
          else if i == (index.value - 1 + n) % n then Some(Prev)
          else None;
        cards[i] := RoleClasses(role);
      }
      if n > 0 {
        RolePlacement(index.value, n);
      }
    }

    /** `showNext`. */
    method ShowNext()
      requires Valid()
      modifies this, cards
      ensures Valid()
      ensures n > 0 ==> index == Some(NextIndex(old(index).value, n)) && Shown()
      ensures n == 0 ==> index == None
    {
      if n > 0 {
        index := Some(NextIndex(index.value, n));
        UpdateCards();
      } else {
        index := None;
      }
    }

    /** `showPrev`. */
    method ShowPrev()
      requires Valid()
      modifies this, cards
      ensures Valid()
      ensures n > 0 ==> index == Some(PrevIndex(old(index).value, n)) && Shown()
      ensures n == 0 ==> index == None
    {
      if n > 0 {
        index := Some(PrevIndex(index.value, n));
        UpdateCards();
      } else {
        index := None;
      }
    }

    /** A click on card `i` brings it to the front unless it already carries `active`. */
    method CardClick(i: nat)
      requires Valid() && i < n
      modifies this, cards
      ensures Valid()
      ensures Active in old(cards[i]) ==> index == old(index) && cards[..] == old(cards[..])
      ensures Active !in old(cards[i]) ==> index == Some(i) && Shown()
    {
      if Active !in cards[i] {
        index := Some(i);
        UpdateCards();
      }
    }
  }

  /** After `showPrev` then `showNext`, or the reverse, the carousel is where it started. */
  method PrevThenNext(c: Carousel)
    requires c.Valid() && c.n > 0
    modifies c, c.cards
    ensures c.Valid() && c.index == old(c.index) && c.Shown()
  {
    c.ShowPrev();
    NextPrevInverse(old(c.index).value, c.n);
    c.ShowNext();
  }

  // ---------------------------------------------------------------- stairway links

  /** One wrapped letter: the delay of its transition in seconds, and its two copies. */
  datatype LetterSpan = LetterSpan(delay: real, top: char, bottom: char)

  /** A link after `sparanWrap`. */
  datatype WrappedLink = WrappedLink(ariaLabel: string, letters: seq<LetterSpan>)

  /** The delay step between consecutive letters, in seconds. */
  const LetterDelay: real := 0.03

  /**
   * `sparanWrap`: the aria label keeps the original text and each character becomes a letter
   * span with the character on top and below. (The source's `letter === ' ' ? ' ' : letter`
   * maps every character to itself.)
   */
  function SparanWrap(text: string): (r: WrappedLink)
    ensures r.ariaLabel == text && |r.letters| == |text|
    ensures forall i :: 0 <= i < |text| ==> r.letters[i].top == text[i] == r.letters[i].bottom
  {
    WrappedLink(text, seq(|text|, i requires 0 <= i < |text| => LetterSpan(i as real * LetterDelay, text[i], text[i])))
  }

  /** The text a wrapped link spells with its top letters. */
  function TopText(w: WrappedLink): (s: string)
    ensures |s| == |w.letters|
  {
    seq(|w.letters|, i requires 0 <= i < |w.letters| => w.letters[i].top)
  }

  /** The wrapped letters spell the original text, and each one starts later than the one before. */
  lemma SparanWrapSpellsText(text: string)
    ensures TopText(SparanWrap(text)) == text
    ensures forall i, j :: 0 <= i < j < |text| ==> SparanWrap(text).letters[i].delay < SparanWrap(text).letters[j].delay
  {
    var w := SparanWrap(text);
    assert forall i :: 0 <= i < |text| ==> TopText(w)[i] == text[i];
  }
}
