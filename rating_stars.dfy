/**
 * The five-star rating widget: which stars are drawn filled, and what a
 * click on a star reports.
 */
module RatingStars {
  import opened Wrappers

  /** The number of stars drawn. */
  const StarCount := 5

  /**
   * `handleClick(star)`: `None` when `onRate` is not called (read-only
   * widget or no handler), otherwise the value passed to it: `null` when
   * the clicked star is the current rating, else the star.
   */
  function HandleClick(readonly: bool, hasOnRate: bool, rating: Option<int>, star: int): Option<Option<int>> {
    if readonly || !hasOnRate then None
    else if rating == Some(star) then Some(None)
    else Some(Some(star))
  }

  /** Star `star` is drawn filled when there is a rating and the star does not exceed it. */
  predicate Filled(rating: Option<int>, star: int) {
    rating.Some? && star <= rating.value
  }

  /** How many of stars 1..n are drawn filled. */
  function FilledAmong(rating: Option<int>, n: nat): nat {
    if n == 0 then 0 else FilledAmong(rating, n - 1) + (if Filled(rating, n) then 1 else 0)
  }

  /**
   * The toggle rule: an active widget reports `null` exactly when the
   * clicked star is the current rating, and the star otherwise; an inactive
   * one reports nothing.
   */
  lemma ClickToggles(readonly: bool, hasOnRate: bool, rating: Option<int>, star: int)
    ensures readonly || !hasOnRate <==> HandleClick(readonly, hasOnRate, rating, star).None?
    ensures !readonly && hasOnRate ==>
      (HandleClick(readonly, hasOnRate, rating, star) == Some(None) <==> rating == Some(star))
    ensures !readonly && hasOnRate && rating != Some(star) ==>
      HandleClick(readonly, hasOnRate, rating, star) == Some(Some(star))
  {
  }

  /** The filled stars are the first `rating` stars: they form a prefix, and there are `rating` of them (clamped to 0..n). */
  lemma {:induction false} FilledPrefix(rating: Option<int>, n: nat)
    ensures forall s, t | 1 <= t <= s && Filled(rating, s) :: Filled(rating, t)
    ensures rating.None? ==> FilledAmong(rating, n) == 0
    ensures rating.Some? ==>
      FilledAmong(rating, n) == if rating.value <= 0 then 0 else if rating.value >= n then n else rating.value
  {
    if n > 0 {
      FilledPrefix(rating, n - 1);
    }
  }

  /**
   * Clicking a star on the active widget and drawing the reported value:
   * the first click on star k (1..5) fills exactly stars 1..k, and a second
   * click on the same star empties all five.
   */
  lemma ClickThenDraw(rating: Option<int>, k: int)
    requires 1 <= k <= StarCount && rating != Some(k)
    ensures var first := HandleClick(false, true, rating, k);
      && first == Some(Some(k))
      && FilledAmong(first.value, StarCount) == k
      && (forall s | 1 <= s <= StarCount :: Filled(first.value, s) <==> s <= k)
      && var second := HandleClick(false, true, first.value, k);
      && second == Some(None)
      && FilledAmong(second.value, StarCount) == 0
  {
    FilledPrefix(Some(k), StarCount);
    FilledPrefix(None, StarCount);
  }
}
