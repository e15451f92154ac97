/** The five-star widget: stars 1 to 5, filled up to the rating, clickable
    only when a rate callback is given. */
module StarRating {
  import opened Common

  datatype Star = Star(number: int, filled: bool, disabled: bool)

  /** The stars rendered for `rating` (default 0); `interactive` says whether
      `onRate` was supplied. */
  function Stars(rating: int, interactive: bool): (r: seq<Star>)
    ensures |r| == 5
    ensures forall k :: 0 <= k < 5 ==> r[k].number == k + 1
    ensures forall k :: 0 <= k < 5 ==> (r[k].filled <==> k + 1 <= rating)
    ensures forall k :: 0 <= k < 5 ==> (r[k].disabled <==> !interactive)
  {
    seq(5, k requires 0 <= k < 5 => Star(k + 1, k + 1 <= rating, !interactive))
  }

  /** The number of filled stars. */
  function FilledCount(stars: seq<Star>): nat {
    if stars == [] then 0 else (if stars[0].filled then 1 else 0) + FilledCount(stars[1..])
  }

  /** The filled stars form a prefix, and there are as many of them as the
      rating, clamped to 0..5. */
  lemma FilledStars(rating: int, interactive: bool)
    ensures var s := Stars(rating, interactive);
      && (forall i, j :: 0 <= i <= j < 5 && s[j].filled ==> s[i].filled)
      && FilledCount(s) == if rating < 0 then 0 else if rating > 5 then 5 else rating
  {
    var s := Stars(rating, interactive);
    assert s == [s[0], s[1], s[2], s[3], s[4]];
    assert FilledCount(s[4..]) == (if s[4].filled then 1 else 0) by {
      assert s[4..][1..] == [];
    }
    assert FilledCount(s[3..]) == (if s[3].filled then 1 else 0) + FilledCount(s[4..]) by {
      assert s[3..][1..] == s[4..];
    }
    assert FilledCount(s[2..]) == (if s[2].filled then 1 else 0) + FilledCount(s[3..]) by {
      assert s[2..][1..] == s[3..];
    }
    assert FilledCount(s[1..]) == (if s[1].filled then 1 else 0) + FilledCount(s[2..]) by {
      assert s[1..][1..] == s[2..];
    }
  }

  /** Clicking star `k` calls `onRate(k)` when a callback exists (the value
      passed), and does nothing otherwise. */
  function Click(stars: seq<Star>, index: nat): (rated: Option<int>)
    requires index < |stars|
    ensures rated.Some? <==> !stars[index].disabled
    ensures rated.Some? ==> rated.value == stars[index].number
  {
    if stars[index].disabled then None else Some(stars[index].number)
  }

  /** On an interactive widget, clicking the k-th star rates k. */
  lemma ClickRatesItsNumber(rating: int, k: nat)
    requires 1 <= k <= 5
    ensures Click(Stars(rating, true), k - 1) == Some(k)
    ensures Click(Stars(rating, false), k - 1).None?
  {
  }
}
