/** The reviews page: the average rating in tenths and its display, the
    star row of the rating picker, and the review form whose submission is
    refused without a signed-in user or a comment. */
module Reviews {
  import opened Seqs
  import opened Text
  import opened Records
  import opened Arith
  import DataStore

  const LOGIN_FIRST := "Please log in to leave a review."
  const WRITE_COMMENT := "Please write a short comment."
  const THANKS := "Thanks for your feedback!"

  /** `Number(r.rating) || 0`: a rating that is not a number counts 0. */
  function RatingValue(r: Review): int {
    if r.rating.Some? then r.rating.value else 0
  }

  function RatingSum(reviews: seq<Review>): int {
    Sum(reviews, RatingValue)
  }

  /** `Math.round((sum / n) * 10) / 10`, kept as a whole number of tenths:
      0 with no reviews, otherwise ten times the mean rating rounded to the
      nearest whole number, halves up. */
  function AverageTenths(reviews: seq<Review>): (t: int)
    ensures |reviews| == 0 ==> t == 0
    ensures var n, s := |reviews|, RatingSum(reviews);
            n > 0 ==> 2 * t * n <= 20 * s + n < 2 * (t + 1) * n
  {
    if |reviews| == 0 then 0 else RoundDiv(10 * RatingSum(reviews), |reviews|)
  }

  /** Every rating is a number from 1 to 5. */
  predicate RatingsInRange(reviews: seq<Review>) {
    forall i :: 0 <= i < |reviews| ==> reviews[i].rating.Some? && 1 <= reviews[i].rating.value <= 5
  }

  /** Rounding a quotient of at least k gives at least k. */
  lemma {:induction false} RoundDivAtLeast(p: int, q: int, k: int)
    requires q > 0 && k * q <= p
    ensures k <= RoundDiv(p, q)
  {
    var r := RoundDiv(p, q);
    assert k * (2 * q) < (r + 1) * (2 * q);
    FactorLess(k, r + 1, 2 * q);
  }

  /** With every rating between 1 and 5, the average lies between 1.0 and
      5.0. */
  lemma {:induction false} AverageInRange(reviews: seq<Review>)
    requires |reviews| > 0 && RatingsInRange(reviews)
    ensures 10 <= AverageTenths(reviews) <= 50
  {
    var n := |reviews|;
    SumBounds(reviews, RatingValue, 1, 5);
    RoundDivBounds(10 * RatingSum(reviews), n, 50);
    RoundDivAtLeast(10 * RatingSum(reviews), n, 10);
  }

  /** What the average box shows: the average, or a dash for 0. */
  datatype AverageLabel = Dash | Shown(tenths: int)

  /** `{avg || '—'}` */
  function Display(tenths: int): (l: AverageLabel)
    ensures l == Dash <==> tenths == 0
    ensures l.Shown? ==> l.tenths == tenths
  {
    if tenths == 0 then Dash else Shown(tenths)
  }

  /** No reviews show a dash; ratings from 1 to 5 always show a number. */
  lemma {:induction false} DisplayCases(reviews: seq<Review>)
    ensures |reviews| == 0 ==> Display(AverageTenths(reviews)) == Dash
    ensures |reviews| > 0 && RatingsInRange(reviews) ==> Display(AverageTenths(reviews)).Shown?
  {
    if |reviews| > 0 && RatingsInRange(reviews) {
      AverageInRange(reviews);
    }
  }

  /** The five stars of the picker; star n (from 1) is lit when n is at
      most the value. */
  function StarRow(value: int): (r: seq<bool>)
    ensures |r| == 5
    ensures forall i, j :: 0 <= i < j < 5 && r[j] ==> r[i]
  {
    seq(5, (i: int) => i + 1 <= value)
  }

  /** After clicking star n the first n stars are lit and no other. */
  lemma {:induction false} ClickLightsUpTo(n: int)
    requires 1 <= n <= 5
    ensures forall i :: 0 <= i < 5 ==> (StarRow(n)[i] <==> i < n)
    ensures |Filter(StarRow(n), (b: bool) => b)| == n
  {
    var r := StarRow(n);
    assert r == seq(n, (i: int) => true) + seq(5 - n, (i: int) => false);
    FilterConcat(seq(n, (i: int) => true), seq(5 - n, (i: int) => false), (b: bool) => b);
    FilterAll(seq(n, (i: int) => true), (b: bool) => b);
    FilterNone(seq(5 - n, (i: int) => false), (b: bool) => b);
  }

  /** Why a submission is refused, if it is: no signed-in user first, then
      a blank comment. */
  function Refusal(user: Option<User>, comment: string): (m: Option<string>)
    ensures m.None? <==> user.Some? && !IsBlank(comment)
    ensures user.None? ==> m == Some(LOGIN_FIRST)
    ensures user.Some? && IsBlank(comment) ==> m == Some(WRITE_COMMENT)
  {
    if user.None? then Some(LOGIN_FIRST)
    else if Trim(comment) == [] then Some(WRITE_COMMENT)
    else None
  }

  /** The review an accepted submission stores: the user's id, the chosen
      rating (the picker never offers 0) and the comment trimmed once. */
  function Added(user: User, rating: int, comment: string, id: string, now: int): (r: Review)
    ensures r.id == id && r.userId == user.id && r.createdAt == now
    ensures r.comment == Trim(comment)
    ensures 1 <= rating <= 5 ==> r.rating == Some(rating)
  {
    DataStore.NewReview(DataStore.ReviewDraft(user.id, Some(rating), Trim(comment)), id, now)
  }

  /** The review form's state. */
  class ReviewForm {
    var rating: int
    var comment: string
    var status: string

    constructor()
      ensures rating == 5 && comment == "" && status == ""
    {
      rating := 5;
      comment := "";
      status := "";
    }

    /** onSubmit: a refused submission only sets the message; an accepted
        one adds exactly one review with the user's id, the chosen rating
        and the trimmed comment, then resets the rating and clears the
        comment. */
    method Submit(user: Option<User>, store: DataStore.Store, id: string, now: int)
      modifies this, store
      ensures var m := Refusal(user, old(comment));
              && (m.Some? ==> status == m.value && rating == old(rating) && comment == old(comment))
              && (m.Some? ==> store.reviews == old(store.reviews))
              && (m.None? ==> status == THANKS && rating == 5 && comment == "")
              && (m.None? ==> store.reviews == [Added(user.value, old(rating), old(comment), id, now)] + old(store.reviews))
      ensures store.items == old(store.items) && store.claims == old(store.claims)
    {
      status := "";
      var m := Refusal(user, comment);
      if m.Some? {
        status := m.value;
        return;
      }
      var _ := store.AddReview(DataStore.ReviewDraft(user.value.id, Some(rating), Trim(comment)), id, now);
      comment := "";
      rating := 5;
      status := THANKS;
    }
  }
}
