/**
 * The numeric bounds the recipe models and serializers share. The model
 * validators read them from the Django settings, and the serializer fields
 * import them from core.constants; neither file is part of this model, and
 * both are taken to hold the same values. Here they are constants the
 * verifier knows nothing about except that each lower bound does not exceed
 * its upper bound.
 */
module Constants {

  /** A closed interval [lo, hi] with lo <= hi. */
  type Range = r: (int, int) | r.0 <= r.1 witness (1, 1)

  const AMOUNT_RANGE: Range
  const COOKING_TIME_RANGE: Range

  const MIN_AMOUNT: int := AMOUNT_RANGE.0
  const MAX_AMOUNT: int := AMOUNT_RANGE.1
  const MIN_COOKING_TIME: int := COOKING_TIME_RANGE.0
  const MAX_COOKING_TIME: int := COOKING_TIME_RANGE.1

  predicate InAmountRange(amount: int) {
    MIN_AMOUNT <= amount <= MAX_AMOUNT
  }

  predicate InCookingTimeRange(minutes: int) {
    MIN_COOKING_TIME <= minutes <= MAX_COOKING_TIME
  }
}
