/**
 * Underlyings and the instruments priced on the lattice: vanilla puts and calls
 * and the barrier-booster note, each with its payoff as a function of the
 * underlying's level.
 */
module Instruments {
  import opened Wrappers

  datatype OptionClass = European | American

  /** An underlying: start level, annual volatility and continuous dividend yield. */
  datatype Underlying = Underlying(startLevel: real, volatility: real, dividendYield: real)

  /** Return of `currentLevel` relative to the start level, as a decimal fraction. */
  function PerformanceInPercentage(underlying: Underlying, currentLevel: real): (r: real)
    requires underlying.startLevel != 0.0
    ensures underlying.startLevel * (1.0 + r) == currentLevel
    ensures currentLevel == underlying.startLevel <==> r == 0.0
  {
    (currentLevel - underlying.startLevel) / underlying.startLevel
  }

  /** With a positive start level the return is strictly increasing in the level. */
  lemma PerformanceStrictlyIncreasing(underlying: Underlying, a: real, b: real)
    requires underlying.startLevel > 0.0
    ensures a < b <==> PerformanceInPercentage(underlying, a) < PerformanceInPercentage(underlying, b)
  {
    ScaledReturnsCompare(underlying.startLevel, PerformanceInPercentage(underlying, a),
                         PerformanceInPercentage(underlying, b), a, b);
  }

  /** Levels s * (1 + ra) and s * (1 + rb) with s > 0 are ordered like ra and rb. */
  lemma ScaledReturnsCompare(s: real, ra: real, rb: real, a: real, b: real)
    requires s > 0.0 && s * (1.0 + ra) == a && s * (1.0 + rb) == b
    ensures a < b <==> ra < rb
  {
    assert b - a == s * (rb - ra);
    if ra < rb {
      assert s * (rb - ra) > 0.0;
    } else {
      assert s * (ra - rb) >= 0.0;
    }
  }

  /**
   * The instruments. The vanilla options keep the fields their payoff reads;
   * the note keeps its four band parameters with the participation level
   * already resolved (see MakeNote).
   */
  datatype Instrument =
    | Put(underlying: Underlying, optionClass: OptionClass, term: real, strikePrice: real, isLong: bool)
    | Call(underlying: Underlying, optionClass: OptionClass, term: real, strikePrice: real, isLong: bool)
    | NoteBarrierBooster(underlying: Underlying, optionClass: OptionClass, term: real,
                         barrierLevel: real, barrierReturn: real, boostLevel: real,
                         boostedReturn: real, participationLevel: real, participationRate: real)

  /** The larger of two values, the first one on a tie. */
  function Max(a: real, b: real): (m: real)
    ensures m >= a && m >= b
    ensures m == a || m == b
  {
    if a >= b then a else b
  }

  /** The payoff is defined wherever it does not divide by a zero start level. */
  predicate PayoffDefined(instrument: Instrument) {
    instrument.NoteBarrierBooster? ==> instrument.underlying.startLevel != 0.0
  }

  /**
   * Return of the note for an underlying return `r`: full downside below the
   * barrier, then three right-open bands.
   */
  function BoosterReturn(note: Instrument, r: real): (ret: real)
    requires note.NoteBarrierBooster?
    ensures r < note.barrierLevel ==> ret == r
    ensures note.barrierLevel <= r < note.boostLevel ==> ret == note.barrierReturn
    ensures note.barrierLevel <= r && note.boostLevel <= r < note.participationLevel ==> ret == note.boostedReturn
    ensures note.barrierLevel <= r && note.boostLevel <= r && note.participationLevel <= r ==>
              ret - note.boostedReturn == (r - note.participationLevel) * note.participationRate
  {
    if r < note.barrierLevel then r
    else if r < note.boostLevel then note.barrierReturn
    else if r < note.participationLevel then note.boostedReturn
    else
      var excessReturn := r - note.participationLevel;
      note.boostedReturn + excessReturn * note.participationRate
  }

  /**
   * Payoff at an underlying level: per unit for a put or a call (negated when
   * short), a decimal return for the note.
   */
  function Payoff(instrument: Instrument, underlyingLevel: real): (r: real)
    requires PayoffDefined(instrument)
    ensures instrument.Put? && instrument.isLong ==>
              r >= 0.0 && r >= instrument.strikePrice - underlyingLevel &&
              (r == 0.0 || r == instrument.strikePrice - underlyingLevel)
    ensures instrument.Call? && instrument.isLong ==>
              r >= 0.0 && r >= underlyingLevel - instrument.strikePrice &&
              (r == 0.0 || r == underlyingLevel - instrument.strikePrice)
    ensures instrument.Put? || instrument.Call? ==> (r != 0.0 ==> (r > 0.0 <==> instrument.isLong))
  {
    match instrument
    case Put(_, _, _, strikePrice, isLong) =>
      var putPayoff := Max(strikePrice - underlyingLevel, 0.0);
      if isLong then putPayoff else -putPayoff
    case Call(_, _, _, strikePrice, isLong) =>
      var callPayoff := Max(underlyingLevel - strikePrice, 0.0);
      if isLong then callPayoff else -callPayoff
    case NoteBarrierBooster(underlying, _, _, _, _, _, _, _, _) =>
      BoosterReturn(instrument, PerformanceInPercentage(underlying, underlyingLevel))
  }

  /** A short put or call pays exactly the negation of the long position. */
  lemma ShortPaysNegatedLong(instrument: Instrument, underlyingLevel: real)
    requires instrument.Put? || instrument.Call?
    ensures Payoff(instrument.(isLong := false), underlyingLevel)
         == -Payoff(instrument.(isLong := true), underlyingLevel)
  {
  }

  /** A long vanilla option is in the money exactly when it pays something. */
  lemma LongPaysIffInTheMoney(instrument: Instrument, underlyingLevel: real)
    requires instrument.Put? || instrument.Call?
    requires instrument.isLong
    ensures instrument.Put? ==> (Payoff(instrument, underlyingLevel) > 0.0 <==> underlyingLevel < instrument.strikePrice)
    ensures instrument.Call? ==> (Payoff(instrument, underlyingLevel) > 0.0 <==> underlyingLevel > instrument.strikePrice)
  {
  }

  /** Call and put are mirror images: long call minus long put is the forward payoff. */
  lemma CallPutPayoffParity(underlying: Underlying, optionClass: OptionClass, term: real,
                            strikePrice: real, underlyingLevel: real)
    ensures Payoff(Call(underlying, optionClass, term, strikePrice, true), underlyingLevel)
          - Payoff(Put(underlying, optionClass, term, strikePrice, true), underlyingLevel)
         == underlyingLevel - strikePrice
  {
  }

  /**
   * The note as the constructor builds it: a missing participation level
   * defaults to the boosted return.
   */
  function MakeNote(underlying: Underlying, optionClass: OptionClass, term: real,
                    barrierLevel: real, boostedReturn: real, barrierReturn: real,
                    boostLevel: real, participationLevel: Option<real>, participationRate: real): (note: Instrument)
    ensures note.NoteBarrierBooster?
    ensures note.underlying == underlying && note.optionClass == optionClass && note.term == term
    ensures note.barrierLevel == barrierLevel && note.barrierReturn == barrierReturn
    ensures note.boostLevel == boostLevel && note.boostedReturn == boostedReturn
    ensures note.participationRate == participationRate
    ensures participationLevel.None? ==> note.participationLevel == boostedReturn
    ensures participationLevel.Some? ==> note.participationLevel == participationLevel.value
  {
    NoteBarrierBooster(underlying, optionClass, term, barrierLevel, barrierReturn, boostLevel, boostedReturn,
                       if participationLevel.None? then boostedReturn else participationLevel.value,
                       participationRate)
  }

  /**
   * The note with every optional argument left at its default: barrier
   * return 0, boost level 0, participation level = boosted return, rate 100%.
   */
  function MakeNoteWithDefaults(underlying: Underlying, optionClass: OptionClass, term: real,
                                barrierLevel: real, boostedReturn: real): (note: Instrument)
    ensures note.NoteBarrierBooster?
    ensures note.barrierReturn == 0.0 && note.boostLevel == 0.0
    ensures note.participationLevel == note.boostedReturn == boostedReturn
    ensures note.participationRate == 1.0
  {
    MakeNote(underlying, optionClass, term, barrierLevel, boostedReturn, 0.0, 0.0, None, 1.0)
  }

  /**
   * With ordered bands, a return exactly at the participation level earns the
   * boosted return: the participation leg starts from zero excess.
   */
  lemma AtParticipationLevelPaysBoostedReturn(note: Instrument)
    requires note.NoteBarrierBooster?
    requires note.barrierLevel <= note.participationLevel && note.boostLevel <= note.participationLevel
    ensures BoosterReturn(note, note.participationLevel) == note.boostedReturn
  {
  }

  /**
   * The note's return is non-decreasing in the underlying return when the
   * barrier return is at least the barrier level, the boosted return at least
   * the barrier return, and the participation rate non-negative.
   */
  lemma BoosterReturnMonotone(note: Instrument, r1: real, r2: real)
    requires note.NoteBarrierBooster?
    requires note.barrierLevel <= note.barrierReturn <= note.boostedReturn
    requires note.participationRate >= 0.0
    requires r1 <= r2
    ensures BoosterReturn(note, r1) <= BoosterReturn(note, r2)
  {
    if note.participationLevel <= r1 {
      assert note.participationRate * (r2 - r1) >= 0.0;
    }
  }

  /**
   * Without a barrier return at or above the barrier level the note is not
   * monotone: just below a barrier of +20% it returns 19.9%, at the barrier 0.
   */
  lemma BoosterReturnNotMonotoneBelowBarrier()
    ensures var note := MakeNote(Underlying(100.0, 0.2, 0.0), European, 1.0, 0.2, 0.5, 0.0, 0.3, None, 1.0);
            BoosterReturn(note, 0.199) > BoosterReturn(note, 0.2)
  {
  }

  /** The note's payoff is non-decreasing in the underlying level under the same conditions. */
  lemma NotePayoffMonotoneInLevel(note: Instrument, level1: real, level2: real)
    requires note.NoteBarrierBooster? && note.underlying.startLevel > 0.0
    requires note.barrierLevel <= note.barrierReturn <= note.boostedReturn
    requires note.participationRate >= 0.0
    requires level1 <= level2
    ensures Payoff(note, level1) <= Payoff(note, level2)
  {
    PerformanceStrictlyIncreasing(note.underlying, level1, level2);
    BoosterReturnMonotone(note, PerformanceInPercentage(note.underlying, level1),
                          PerformanceInPercentage(note.underlying, level2));
  }

  /**
   * The call constructor as written: it passes its arguments on without the
   * term, so every field from the term onwards receives the next argument.
   * The term gets the strike, the strike gets the long flag (True counts as
   * 1), and the long flag gets the number of contracts (0 counts as false).
   */
  function CallAsWritten(underlying: Underlying, optionClass: OptionClass, term: real, strikePrice: real,
                         isLong: bool, contracts: int, costPerContract: real, unitsPerContract: int): (call: Instrument)
    ensures call.Call? && call.underlying == underlying && call.optionClass == optionClass
    ensures call.term == strikePrice
    ensures call.strikePrice == if isLong then 1.0 else 0.0
    ensures call.isLong <==> contracts != 0
  {
    Call(underlying, optionClass, strikePrice, if isLong then 1.0 else 0.0, contracts != 0)
  }

  /** The call constructor as intended: each argument lands in its own field. */
  function MakeCall(underlying: Underlying, optionClass: OptionClass, term: real, strikePrice: real,
                    isLong: bool, contracts: int, costPerContract: real, unitsPerContract: int): (call: Instrument)
    ensures call.Call? && call.underlying == underlying && call.optionClass == optionClass
    ensures call.term == term && call.strikePrice == strikePrice && call.isLong == isLong
  {
    Call(underlying, optionClass, term, strikePrice, isLong)
  }

  /**
   * A long call struck at 100 with the default contract count: as written it
   * pays -149 at level 150 (short, struck at 1); as intended it pays 50.
   */
  lemma CallConstructorShiftsArguments()
    ensures var u := Underlying(100.0, 0.2, 0.0);
            Payoff(CallAsWritten(u, European, 1.0, 100.0, true, 0, 0.0, 100), 150.0) == -149.0 &&
            Payoff(MakeCall(u, European, 1.0, 100.0, true, 0, 0.0, 100), 150.0) == 50.0
  {
  }

  /** The intended constructor gives a long call whose payoff is the call's intrinsic value. */
  lemma MakeCallPaysIntrinsic(underlying: Underlying, optionClass: OptionClass, term: real, strikePrice: real,
                              contracts: int, costPerContract: real, unitsPerContract: int, underlyingLevel: real)
    ensures var call := MakeCall(underlying, optionClass, term, strikePrice, true, contracts, costPerContract, unitsPerContract);
            Payoff(call, underlyingLevel) == Max(underlyingLevel - strikePrice, 0.0)
  {
  }
}
