/**
 * The wpDiscuz user's configuration (wordpress_wpdiscuz/config.py): the default transition
 * weight tables of its page states, the page and level limits, and the validation of the
 * star-rating range the user draws from.
 */
module WpdiscuzConfig {
  import opened Wrappers
  import opened Engine
  import ProbConfig
  import WpdiscuzActions

  // ---------------------------------------------------------------- weight tables

  /** Posts page: nav_older, nav_newer, nav_post, return. */
  const PostsPageWeights: seq<real> := [0.15, 0.25, 0.35, 0.25]
  /** Close choice: leave_open, close. */
  const CloseChoiceWeights: seq<real> := [0.6, 0.4]
  /** Post page: rate_post, down_vote, up_vote, comment, reply, return. */
  const PostPageWeights: seq<real> := [0.1, 0.1, 0.15, 0.25, 0.2, 0.2]

  /** The return boost both activity pages default to. */
  const PageRetIncrease: real := 1.5
  /** The deepest posts page the user navigates to. */
  const DefaultMaxPage: int := 3
  /** The deepest comment level the user replies to. */
  const DefaultMaxLevel: int := 3

  /** A weight table as the float fields of a probability configuration. */
  function Fields(weights: seq<real>): (r: seq<ProbConfig.Field>)
    ensures ProbConfig.Values(r) == weights
    ensures forall i :: 0 <= i < |r| ==> r[i].kind == ProbConfig.FloatKind
  {
    seq(|weights|, i requires 0 <= i < |weights| => ProbConfig.Field("", ProbConfig.FloatKind, weights[i]))
  }

  /** Every default table loads: each weight is a probability and the table sums to 1. */
  lemma DefaultTablesValid()
    ensures ProbConfig.Validate(Fields(PostsPageWeights)).Success?
    ensures ProbConfig.Validate(Fields(CloseChoiceWeights)).Success?
    ensures ProbConfig.Validate(Fields(PostPageWeights)).Success?
  {
    PostsPageTableValid();
    CloseChoiceTableValid();
    PostPageTableValid();
  }

  lemma PostsPageTableValid()
    ensures ProbConfig.Validate(Fields(PostsPageWeights)).Success?
  {
    assert Sum(PostsPageWeights) == 1.0;
    TableValid(PostsPageWeights);
  }

  lemma CloseChoiceTableValid()
    ensures ProbConfig.Validate(Fields(CloseChoiceWeights)).Success?
  {
    assert Sum(CloseChoiceWeights) == 1.0;
    TableValid(CloseChoiceWeights);
  }

  lemma PostPageTableValid()
    ensures ProbConfig.Validate(Fields(PostPageWeights)).Success?
  {
    assert Sum(PostPageWeights) == 1.0;
    TableValid(PostPageWeights);
  }

  /** A table of weights in [0, 100] that sums to 1 loads. */
  lemma TableValid(weights: seq<real>)
    requires forall i :: 0 <= i < |weights| ==> 0.0 <= weights[i] <= 100.0
    requires Sum(weights) == 1.0
    ensures ProbConfig.Validate(Fields(weights)).Success?
  {
    var fs := Fields(weights);
    assert forall i :: 0 <= i < |fs| ==> fs[i].value == weights[i];
  }

  // ---------------------------------------------------------------- ratings

  /** The rating settings of the post page (defaults: level 3, ratings 1 to 5). */
  datatype PostPageExtra = PostPageExtra(maxLevel: int, maxRating: int, minRating: int)

  const DefaultPostPageExtra: PostPageExtra := PostPageExtra(DefaultMaxLevel, 5, 1)

  /** A star rating: 1 to 5. */
  predicate ValidRating(v: int) { 0 < v <= 5 }

  /**
   * The validation errors of the rating fields, checked in declaration order: `max_rating`'s
   * range; then `min_rating`'s range and, only if it passed and `max_rating` was accepted,
   * `min_rating <= max_rating`.
   */
  function RatingErrors(e: PostPageExtra): (errs: seq<string>)
    ensures |errs| <= 2
    ensures |errs| == 0 <==> ValidRating(e.minRating) && ValidRating(e.maxRating) && e.minRating <= e.maxRating
    ensures !ValidRating(e.maxRating) ==> |errs| >= 1
    ensures !ValidRating(e.minRating) ==> |errs| >= 1
  {
    (if ValidRating(e.maxRating) then [] else ["Rating must be between 1 and 5"])
    + (if !ValidRating(e.minRating) then ["Rating must be between 1 and 5"]
       else if ValidRating(e.maxRating) && e.minRating > e.maxRating then ["Min rating must be <= max rating"]
       else [])
  }

  /** Loading the rating settings: accepted unchanged iff no rule is broken. */
  function ValidateExtra(e: PostPageExtra): (r: Result<PostPageExtra>)
    ensures r.Success? <==> 1 <= e.minRating <= e.maxRating <= 5
    ensures r.Success? ==> r.value == e
  {
    var errs := RatingErrors(e);
    if |errs| == 0 then Success(e) else Failure(errs[0])
  }

  /** The defaults pass. */
  lemma DefaultExtraValid()
    ensures ValidateExtra(DefaultPostPageExtra) == Success(DefaultPostPageExtra)
  {
  }

  /**
   * Accepted settings keep the rating action from raising: on any unrated post the drawn
   * rating lies between the configured bounds, both valid star counts.
   */
  lemma AcceptedRatingsAlwaysDraw(e: PostPageExtra, rating: Option<int>, draw: nat)
    requires ValidateExtra(e).Success? && draw <= e.maxRating - e.minRating
    ensures WpdiscuzActions.RatePost(rating, true, false, e.minRating, e.maxRating, draw).Success?
    ensures var r := WpdiscuzActions.RatePost(rating, true, false, e.minRating, e.maxRating, draw).value;
            r.Some? && ValidRating(r.value)
  {
  }
}
