/** A disc of the video shop's catalog: a DVD or Blu-ray with a genre, an
    image, an append-only list of comments and an overall rating that is
    cached as the mean of the comments' ratings, rounded to two places. */
module Catalog {
  import opened JavaMath
  import opened Rounding

  datatype DiscType = BLURAY | DVD

  /** A comment on a disc; only its rating takes part in the disc's rating. */
  datatype Comment = Comment(rating: int)

  // ---------------------------------------------------------------------
  // The rating of a list of comments
  // ---------------------------------------------------------------------

  /** The sum of the ratings of `comments`. */
  function TotalRating(comments: seq<Comment>): int
  {
    if comments == [] then 0 else comments[0].rating + TotalRating(comments[1..])
  }

  /** Adding a comment at the end adds its rating to the total. */
  lemma {:induction false} TotalRatingAppend(comments: seq<Comment>, c: Comment)
    ensures TotalRating(comments + [c]) == TotalRating(comments) + c.rating
  {
    if comments != [] {
      assert (comments + [c])[1..] == comments[1..] + [c];
      TotalRatingAppend(comments[1..], c);
    }
  }

  /** Ratings between `lo` and `hi` give a total between `n * lo` and `n * hi`. */
  lemma {:induction false} TotalRatingBounds(comments: seq<Comment>, lo: int, hi: int)
    requires forall i :: 0 <= i < |comments| ==> lo <= comments[i].rating <= hi
    ensures |comments| * lo <= TotalRating(comments) <= |comments| * hi
  {
    if comments != [] {
      TotalRatingBounds(comments[1..], lo, hi);
      assert |comments| * lo == |comments[1..]| * lo + lo;
      assert |comments| * hi == |comments[1..]| * hi + hi;
    }
  }

  /** The mean rating as the double arithmetic of the source computes it:
      NaN for no comments, since the sum is then `0.0` and `0.0 / 0` is NaN. */
  function MeanRating(comments: seq<Comment>): (d: Double)
    ensures d.NaN? <==> comments == []
    ensures d.Finite? <==> comments != []
  {
    Divide(TotalRating(comments) as real, |comments|)
  }

  /** The rating a disc with `comments` caches: the mean rating rounded to
      two places; for no comments it is 0, since `Math.round(NaN)` is 0. */
  function OverallRating(comments: seq<Comment>): (r: real)
    ensures comments == [] ==> r == 0.0
    ensures (r * 100.0).Floor as real == r * 100.0
  {
    RoundNaN(2);
    RoundScaledBack(MeanRating(comments));
    RoundHalfUp(MeanRating(comments), 2)
  }

  /** The full recomputation after appending `c` gives what a running sum
      and count would: the previous total plus the new rating, over one more
      comment. */
  lemma OverallRatingAfterAppend(comments: seq<Comment>, c: Comment)
    ensures OverallRating(comments + [c]) ==
            RoundHalfUp(Finite((TotalRating(comments) + c.rating) as real / (|comments| + 1) as real), 2)
  {
    var total := TotalRating(comments + [c]);
    assert total == TotalRating(comments) + c.rating by {
      TotalRatingAppend(comments, c);
    }
    assert |comments + [c]| == |comments| + 1;
    assert MeanRating(comments + [c]) == Finite(total as real / (|comments| + 1) as real);
  }

  /** For a non-empty list whose mean times 100 lies within the range of a
      `long`, the overall rating times 100 is the integer closest to the
      mean times 100, ties going up. */
  lemma OverallRatingIsRoundedMean(comments: seq<Comment>)
    requires comments != []
    requires LONG_MIN as real <= TotalRating(comments) as real / |comments| as real * 100.0 < LONG_MAX as real
    ensures var k := OverallRating(comments) * 100.0;
            var m := TotalRating(comments) as real / |comments| as real;
            k.Floor as real == k && m * 100.0 - 0.5 < k <= m * 100.0 + 0.5
  {
    var m := TotalRating(comments) as real / |comments| as real;
    assert MeanRating(comments) == Finite(m);
    RoundNearest(m);
  }

  /** The quotient of a total between `n * lo` and `n * hi` by `n` lies
      between `lo` and `hi`. */
  lemma QuotientBetween(total: int, n: nat, lo: int, hi: int)
    requires n > 0 && n * lo <= total <= n * hi
    ensures lo as real <= total as real / n as real <= hi as real
  {
    assert (n * lo) as real == n as real * lo as real;
    assert (n * hi) as real == n as real * hi as real;
  }

  /** When every rating lies between `lo` and `hi`, so does the overall
      rating (provided `100 * lo` and `100 * hi` fit in a `long`). */
  lemma OverallRatingBetween(comments: seq<Comment>, lo: int, hi: int)
    requires comments != []
    requires forall i :: 0 <= i < |comments| ==> lo <= comments[i].rating <= hi
    requires LONG_MIN <= lo * 100 && hi * 100 <= LONG_MAX
    ensures lo as real <= OverallRating(comments) <= hi as real
  {
    var m := TotalRating(comments) as real / |comments| as real;
    TotalRatingBounds(comments, lo, hi);
    QuotientBetween(TotalRating(comments), |comments|, lo, hi);
    assert MeanRating(comments) == Finite(m);
    RoundMonotone(lo as real, m);
    RoundMonotone(m, hi as real);
    RoundWhole(lo);
    RoundWhole(hi);
  }

  /** Three comments rated 4, 5 and 3 give 4.0; a fourth rated 2 gives 3.5. */
  lemma RatingScenario()
    ensures OverallRating([Comment(4), Comment(5), Comment(3)]) == 4.0
    ensures OverallRating([Comment(4), Comment(5), Comment(3), Comment(2)]) == 3.5
  {
    RoundWhole(4);
    var four := [Comment(4), Comment(5), Comment(3), Comment(2)];
    assert TotalRating(four) == 14;
    RoundScaledBack(Finite(3.5));
  }

  // ---------------------------------------------------------------------
  // The disc
  // ---------------------------------------------------------------------

  class Disc {
    var genre: string
    var image: string
    var discType: DiscType
    var comments: seq<Comment>
    var overallRating: real

    /** The cached rating is the rating of the whole comment list. */
    ghost predicate Valid()
      reads this
    {
      overallRating == OverallRating(comments)
    }

    constructor (image: string, genre: string, discType: DiscType)
      ensures Valid()
      ensures this.image == image && this.genre == genre && this.discType == discType
      ensures comments == [] && overallRating == 0.0
    {
      this.image := image;
      this.genre := genre;
      this.discType := discType;
      comments := [];
      overallRating := 0.0;
      new;
      CalculateRating();
    }

    /** Recomputes the cached rating by summing the ratings of all comments. */
    method CalculateRating()
      modifies this`overallRating
      ensures Valid()
    {
      var added: real := 0.0;
      for i := 0 to |comments|
        invariant added == TotalRating(comments[..i]) as real
      {
        TotalRatingAppend(comments[..i], comments[i]);
        assert comments[..i + 1] == comments[..i] + [comments[i]];
        added := added + comments[i].rating as real;
      }
      assert comments[..|comments|] == comments;
      var rounded := Round(Divide(added, |comments|), 2);
      assert rounded.Success?;
      overallRating := rounded.value;
    }

    /** Appends `comment` and recomputes the rating over the whole list. */
    method AddComment(comment: Comment)
      modifies this
      ensures comments == old(comments) + [comment]
      ensures Valid()
      ensures genre == old(genre) && image == old(image) && discType == old(discType)
    {
      comments := comments + [comment];
      CalculateRating();
    }

    /** The comments, as a value the caller cannot change the disc through. */
    function GetComments(): (cs: seq<Comment>)
      reads this
      requires Valid()
      ensures cs == comments
      ensures OverallRating(cs) == overallRating
    {
      comments
    }

    function GetGenre(): string
      reads this
    {
      genre
    }

    function GetImage(): string
      reads this
    {
      image
    }

    function GetType(): DiscType
      reads this
    {
      discType
    }

    /** The cached rating, which is the rating of all comments so far. */
    function GetOverallRating(): (r: real)
      reads this
      requires Valid()
      ensures r == OverallRating(comments)
    {
      overallRating
    }
  }
}
