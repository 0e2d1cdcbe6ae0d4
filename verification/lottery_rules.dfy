/**
 * The request validators that run before the lottery handlers, and the per-game multiplier table.
 * Amounts are minor units; multipliers in request bodies are tenths (11 stands for 1.1).
 */
module LotteryRules {
  import opened Wrappers
  import opened Text
  import opened Accounts
  import opened Store

  /** The stake limits every bet request must meet, whatever the draw's own limits. */
  const MinBet: int := 100 * MinorPerKyat
  const MaxBet: int := 50000 * MinorPerKyat

  /** A bet request body; a field is `None` when it is missing or of the wrong type. */
  datatype BetBody = BetBody(lotteryId: Option<int>, number: Option<string>, amount: Option<int>)

  /** The pattern `^[0-9]{2,3}$`. */
  predicate TwoOrThreeDigits(s: string) {
    (|s| == 2 || |s| == 3) && AllDigits(s)
  }

  /** `validateBet`: an integer lottery id, a 2-3 digit number and a stake within [MinBet, MaxBet]. */
  predicate ValidateBet(b: BetBody) {
    && b.lotteryId.Some?
    && b.number.Some? && TwoOrThreeDigits(b.number.value)
    && b.amount.Some? && MinBet <= b.amount.value <= MaxBet
  }

  /** A multiplier-update body: the multiplier in tenths and the optional `type` field. */
  datatype MultiplierBody = MultiplierBody(multiplierTenths: Option<int>, gameType: Option<string>)

  /** The cap `validateMultiplier` applies: 100 when the body says '2D', 1000 otherwise (tenths). */
  function MultiplierCapTenths(gameType: Option<string>): int {
    if gameType == Some("2D") then 100 * 10 else 1000 * 10
  }

  /** `validateMultiplier`: at least 1.1 and at most the cap chosen from the body's `type`. */
  predicate ValidateMultiplier(b: MultiplierBody) {
    b.multiplierTenths.Some? && 11 <= b.multiplierTenths.value <= MultiplierCapTenths(b.gameType)
  }

  /** A draw-creation body; bet limits are whole kyat, as `isInt` demands. */
  datatype CreationBody = CreationBody(
    gameType: string,
    drawTimeIsIso8601: bool,
    minBetKyat: Option<int>,
    maxBetKyat: Option<int>,
    multiplierTenths: Option<int>)

  /** `validateLotteryCreation`: each optional field is checked only when present. */
  predicate ValidateLotteryCreation(b: CreationBody) {
    && (b.gameType == "2D" || b.gameType == "3D")
    && b.drawTimeIsIso8601
    && (b.minBetKyat.Some? ==> b.minBetKyat.value >= 100)
    && (b.maxBetKyat.Some? ==> b.maxBetKyat.value <= 1_000_000)
    && (b.multiplierTenths.Some? ==> b.multiplierTenths.value >= 10)
  }

  /** One row of the default multiplier table, in tenths. */
  datatype MultiplierRange = MultiplierRange(minTenths: int, maxTenths: int, defaultTenths: int)

  function DefaultMultipliers(g: GameType): MultiplierRange {
    match g
    case TwoD => MultiplierRange(11, 100 * 10, 85 * 10)
    case ThreeD => MultiplierRange(11, 1000 * 10, 500 * 10)
  }

  function GameName(g: GameType): string {
    match g
    case TwoD => "2D"
    case ThreeD => "3D"
  }

  /** Each game's default multiplier lies within its own range, and that range is what the validator enforces for the game. */
  lemma DefaultsWithinRange(g: GameType)
    ensures var r := DefaultMultipliers(g);
      r.minTenths <= r.defaultTenths <= r.maxTenths
      && ValidateMultiplier(MultiplierBody(Some(r.defaultTenths), Some(GameName(g))))
      && r.maxTenths == MultiplierCapTenths(Some(GameName(g)))
  {
  }

  /**
   * For a whole multiplier, the validator's "at least 1.1" and the handler's "greater than 1" agree:
   * the validator passes exactly for whole multipliers from 2 up to the cap.
   */
  lemma WholeMultiplierBounds(m: int, gameType: Option<string>)
    ensures ValidateMultiplier(MultiplierBody(Some(m * 10), gameType))
        <==> 2 <= m && m * 10 <= MultiplierCapTenths(gameType)
    ensures ValidateMultiplier(MultiplierBody(Some(m * 10), gameType)) ==> m > 1
  {
  }

  /**
   * The creation validator lets a multiplier of exactly 1 through, despite its "greater than 1"
   * message: for every body, a given multiplier passes exactly when it is at least 10 tenths and
   * the rest of the body passes without one.
   */
  lemma CreationAcceptsMultiplierOne(b: CreationBody, tenths: int)
    ensures ValidateLotteryCreation(b.(multiplierTenths := Some(tenths)))
        <==> ValidateLotteryCreation(b.(multiplierTenths := None)) && tenths >= 10
    ensures ValidateLotteryCreation(CreationBody("3D", true, None, None, Some(10)))
  {
  }
}
