/** The two power-point counters of the board and the turn indicator.
    A counter keeps its value only as the text it displays: each update reads
    the number back from that text, adds a delta and writes the sum as text.
    The turn indicator flips between the Confed star and the Kilrathi sigil. */
module UI {
  import opened Optional
  import opened Decimal

  /** The text both counters show when the board is built. */
  const InitialPowerPoints := "30"

  /** What `${NaN + delta}` renders. */
  const NotANumber := "NaN"

  /** The text a counter shows after one update by delta: the sum of the
      number read back from the old text and delta, or NaN again when the old
      text holds no number. No floor, no ceiling. */
  function ShiftedText(text: string, delta: int): (r: string)
    ensures ParseInt(text).Some? ==> IsCanonicalInt(r) && ParseInt(r) == Some(ParseInt(text).value + delta)
    ensures ParseInt(text).None? ==> ParseInt(r).None?
  {
    var currentPoints := ParseInt(text);
    if currentPoints.Some? then
      FormatThenParse(currentPoints.value + delta);
      FormatInt(currentPoints.value + delta)
    else
      NotANumberReadsAsNaN();
      NotANumber
  }

  /** The text NaN renders holds no number: reading it back gives NaN again. */
  lemma NotANumberReadsAsNaN()
    ensures ParseInt(NotANumber).None?
  {
    assert Unsigned(NotANumber) == NotANumber;
  }

  /** Both counters start at 30: the initial text reads back as 30. */
  lemma InitialPowerPointsIsThirty()
    ensures ParseInt(InitialPowerPoints) == Some(30)
    ensures FormatInt(30) == InitialPowerPoints
  {
    assert Digits(3) == "3";
    assert Digits(30) == "30";
    FormatThenParse(30);
  }

  /** Successive updates accumulate: d1 then d2 shows what d1 + d2 shows. */
  lemma ShiftsAccumulate(text: string, d1: int, d2: int)
    ensures ShiftedText(ShiftedText(text, d1), d2) == ShiftedText(text, d1 + d2)
  {
    var once := ShiftedText(text, d1);
    if ParseInt(text).Some? {
      var n := ParseInt(text).value;
      assert ParseInt(once) == Some(n + d1);
      assert ShiftedText(once, d2) == FormatInt(n + d1 + d2);
      assert ShiftedText(text, d1 + d2) == FormatInt(n + (d1 + d2));
    } else {
      NotANumberReadsAsNaN();
      assert once == NotANumber;
    }
  }

  /** A counter showing 30 shows 25 after an update by -5. */
  lemma ThirtyMinusFive()
    ensures ShiftedText(InitialPowerPoints, -5) == "25"
  {
    InitialPowerPointsIsThirty();
    assert Digits(2) == "2";
    assert Digits(25) == "25";
  }

  /** The two score texts of the board, with the integers they show as ghost
      state. */
  class UserInterface {
    var playerPowerPoints: string
    var opponentPowerPoints: string
    ghost var playerPoints: int
    ghost var opponentPoints: int

    /** Each text is the canonical rendering of the number it shows. */
    ghost predicate Valid()
      reads this
    {
      && playerPowerPoints == FormatInt(playerPoints)
      && opponentPowerPoints == FormatInt(opponentPoints)
    }

    constructor ()
      ensures Valid()
      ensures playerPowerPoints == InitialPowerPoints && opponentPowerPoints == InitialPowerPoints
      ensures playerPoints == 30 && opponentPoints == 30
    {
      playerPowerPoints := InitialPowerPoints;
      opponentPowerPoints := InitialPowerPoints;
      playerPoints := 30;
      opponentPoints := 30;
      InitialPowerPointsIsThirty();
    }

    /** Adds delta to the player's counter; the opponent's is untouched. */
    method PlayerPowerPoints(delta: int)
      requires Valid()
      modifies this`playerPowerPoints, this`playerPoints
      ensures Valid()
      ensures playerPoints == old(playerPoints) + delta
      ensures playerPowerPoints == ShiftedText(old(playerPowerPoints), delta)
      ensures ParseInt(playerPowerPoints) == Some(old(playerPoints) + delta)
    {
      FormatThenParse(playerPoints);
      playerPowerPoints := ShiftedText(playerPowerPoints, delta);
      playerPoints := playerPoints + delta;
    }

    /** Adds delta to the opponent's counter; the player's is untouched. */
    method OpponentPowerPoints(delta: int)
      requires Valid()
      modifies this`opponentPowerPoints, this`opponentPoints
      ensures Valid()
      ensures opponentPoints == old(opponentPoints) + delta
      ensures opponentPowerPoints == ShiftedText(old(opponentPowerPoints), delta)
      ensures ParseInt(opponentPowerPoints) == Some(old(opponentPoints) + delta)
    {
      FormatThenParse(opponentPoints);
      opponentPowerPoints := ShiftedText(opponentPowerPoints, delta);
      opponentPoints := opponentPoints + delta;
    }
  }

  /** Resource path of the Confed star texture. */
  const ConfedStarURI := "assets/wc-ccg-confed-star.png"
  /** Resource path of the Kilrathi sigil texture. */
  const KilrathiSigilURI := "assets/wc-ccg-kilrathi-sigil.png"

  /** The face that goes with a flag: flipped shows the Kilrathi sigil. */
  function Face(flipped: bool): string {
    if flipped then KilrathiSigilURI else ConfedStarURI
  }

  /** What the indicator shows: its flag and its current texture. */
  datatype IndicatorView = IndicatorView(flipped: bool, texture: string)

  /** The indicator after one flip, the texture swap taken at the end of the
      animation: the flag is negated and the texture becomes Confed when the
      indicator was flipped, Kilrathi when it was not. */
  function Flip(v: IndicatorView): (r: IndicatorView)
    ensures r.flipped == !v.flipped
    ensures r.texture == Face(r.flipped)
    ensures r.texture != Face(v.flipped)
  {
    var endTexture := if v.flipped then ConfedStarURI else KilrathiSigilURI;
    IndicatorView(!v.flipped, endTexture)
  }

  /** Two flips restore both the flag and the texture of any view whose
      texture matches its flag. */
  lemma FlipTwiceRestores(v: IndicatorView)
    requires v.texture == Face(v.flipped)
    ensures Flip(Flip(v)) == v
  {
  }

  /** The sprite that tells whose turn it is. */
  class TurnIndicator {
    var flipped: bool
    var texture: string

    ghost predicate Valid()
      reads this
    {
      texture == Face(flipped)
    }

    function View(): IndicatorView
      reads this
    {
      IndicatorView(flipped, texture)
    }

    constructor ()
      ensures Valid()
      ensures flipped && texture == KilrathiSigilURI
    {
      flipped := true;
      texture := KilrathiSigilURI;
    }

    method FlipOver()
      requires Valid()
      modifies this
      ensures Valid()
      ensures View() == Flip(old(View()))
      ensures flipped == !old(flipped)
      ensures texture == (if old(flipped) then ConfedStarURI else KilrathiSigilURI)
    {
      var endTex := if flipped then ConfedStarURI else KilrathiSigilURI;
      flipped := !flipped;
      texture := endTex;
    }
  }

}
