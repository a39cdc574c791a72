/** Star icons for a contractor's rating and for a single review. A rating is
    written in whole tenths (4.5 is 45), which covers every rating the pages
    show. */
module Stars {
  import opened Wrappers
  import opened Seqs
  import opened Schema

  datatype Icon = FullStar | HalfStar | EmptyStar

  function Repeat(icon: Icon, n: nat): (r: seq<Icon>)
    ensures |r| == n && forall i :: 0 <= i < n ==> r[i] == icon
  {
    if n == 0 then [] else [icon] + Repeat(icon, n - 1)
  }

  /** `Math.floor(rating)`. */
  function FullCount(tenths: nat): nat { tenths / 10 }

  /** `rating % 1 >= 0.5`. */
  predicate HasHalf(tenths: nat) { tenths % 10 >= 5 }

  /** `5 - fullStars - (hasHalfStar ? 1 : 0)`; a loop up to a negative bound
      runs no times, so the count is never below zero. */
  function EmptyCount(tenths: nat): nat {
    var e := 5 - FullCount(tenths) - (if HasHalf(tenths) then 1 else 0);
    if e < 0 then 0 else e
  }

  function IsIcon(icon: Icon): Icon -> bool { x => x == icon }

  /** The icons `renderStars` pushes: the full stars, at most one half star,
      then the empty stars. */
  function RenderStars(tenths: nat): (r: seq<Icon>)
    ensures |r| == FullCount(tenths) + (if HasHalf(tenths) then 1 else 0) + EmptyCount(tenths)
    ensures forall i :: 0 <= i < FullCount(tenths) ==> r[i] == FullStar
    ensures forall i :: FullCount(tenths) <= i < |r| ==> r[i] != FullStar
    ensures HasHalf(tenths) <==> HalfStar in r
  {
    Repeat(FullStar, FullCount(tenths))
    + (if HasHalf(tenths) then [HalfStar] else [])
    + Repeat(EmptyStar, EmptyCount(tenths))
  }

  /** A rating from 0 to 5 always shows five icons, the full ones counting
      its whole stars. */
  lemma FiveIcons(tenths: nat)
    requires tenths <= 50
    ensures |RenderStars(tenths)| == 5
    ensures Count(IsIcon(FullStar), RenderStars(tenths)) == tenths / 10
    ensures Count(IsIcon(HalfStar), RenderStars(tenths)) <= 1
  {
    var r := RenderStars(tenths);
    var f, h := FullCount(tenths), if HasHalf(tenths) then 1 else 0;
    CountSplit(FullStar, r, f);
    CountSplit(HalfStar, r, f + h);
    FullPrefixCount(r, f);
    if h == 1 {
      assert r[f] == HalfStar;
    }
    NoHalfAfter(r, f + h, tenths);
  }

  lemma {:induction false} CountSplit(icon: Icon, r: seq<Icon>, k: nat)
    requires k <= |r|
    ensures Count(IsIcon(icon), r) == Count(IsIcon(icon), r[..k]) + Count(IsIcon(icon), r[k..])
  {
    assert r == r[..k] + r[k..];
    FilterAppend(IsIcon(icon), r[..k], r[k..]);
  }

  lemma {:induction false} FullPrefixCount(r: seq<Icon>, f: nat)
    requires f <= |r| && forall i :: 0 <= i < f ==> r[i] == FullStar
    requires forall i :: f <= i < |r| ==> r[i] != FullStar
    ensures Count(IsIcon(FullStar), r) == f
  {
    CountSplit(FullStar, r, f);
    FilterAll(IsIcon(FullStar), r[..f]);
    FilterNone(IsIcon(FullStar), r[f..]);
  }

  lemma NoHalfAfter(r: seq<Icon>, k: nat, tenths: nat)
    requires r == RenderStars(tenths) && k == FullCount(tenths) + (if HasHalf(tenths) then 1 else 0)
    ensures k <= |r|
    ensures Count(IsIcon(HalfStar), r[..k]) <= 1
    ensures Count(IsIcon(HalfStar), r[k..]) == 0
  {
    FilterNone(IsIcon(HalfStar), r[k..]);
    var f := FullCount(tenths);
    CountSplit(HalfStar, r[..k], f);
    assert r[..k][..f] == r[..f];
    FilterNone(IsIcon(HalfStar), r[..f]);
  }

  /** A whole-star rating shows no half star. */
  lemma WholeRatingNoHalf(stars: nat)
    ensures HalfStar !in RenderStars(stars * 10)
    ensures FullCount(stars * 10) == stars
  {
  }

  /** Above five stars no empty icon is drawn, and from 5.5 on the row grows
      past five icons. */
  lemma OverFiveNoEmpty(tenths: nat)
    requires tenths > 50
    ensures EmptyCount(tenths) == 0 && |RenderStars(tenths)| >= 5
    ensures tenths >= 55 ==> |RenderStars(tenths)| > 5
  {
  }

  /** A review's stars: `rating` filled, then `5 - rating` empty. An array
      length that is negative or not a whole number is a range error, so
      such a rating draws nothing. */
  function ReviewStars(rating: real): (r: Option<seq<Icon>>)
    ensures r.Some? <==> 0.0 <= rating <= 5.0 && rating == rating.Floor as real
    ensures r.Some? ==> |r.value| == 5
  {
    if rating < 0.0 || rating > 5.0 || rating != rating.Floor as real then None
    else
      var k: nat := rating.Floor;
      Some(Repeat(FullStar, k) + Repeat(EmptyStar, 5 - k))
  }

  /** A rating the review schema accepts draws exactly when it is whole, and
      then `rating` filled stars and the rest empty; the schema itself lets
      a fractional rating through, which only the integer column keeps out
      of stored reviews. */
  lemma AcceptedReviewsDraw(rating: real)
    requires ReviewRatingAccepted(rating)
    ensures ReviewStars(rating).Some? <==> rating == rating.Floor as real
    ensures ReviewStars(rating).Some? ==> Count(IsIcon(FullStar), ReviewStars(rating).value) == rating.Floor
    ensures ReviewStars(rating).Some? ==> Count(IsIcon(EmptyStar), ReviewStars(rating).value) == 5 - rating.Floor
    ensures ReviewRatingAccepted(4.5) && ReviewStars(4.5).None?
  {
    if ReviewStars(rating).Some? {
      var k: nat := rating.Floor;
      var r := ReviewStars(rating).value;
      FullPrefixCount(r, k);
      CountSplit(EmptyStar, r, k);
      FilterNone(IsIcon(EmptyStar), r[..k]);
      FilterAll(IsIcon(EmptyStar), r[k..]);
    }
    assert (4.5).Floor == 4;
  }
}
