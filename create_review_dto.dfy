/** CreateReviewDto: a star rating and an optional comment. */
module CreateReviewDto {
  import opened Wrappers
  import opened ClassValidator

  const MinRating: int := 1
  const MaxRating: int := 5
  const MaxCommentLength: nat := 500

  /** The request body as the validators see it. */
  datatype Body = Body(rating: JsValue, comment: JsValue, unknownKeys: set<string>)

  /** A body that passed validation. */
  datatype ReviewInput = ReviewInput(rating: int, comment: Option<string>)

  /** @IsInt, @Min(1), @Max(5). */
  predicate ValidRating(v: JsValue) {
    IsInt(v) && Min(v, MinRating as real) && Max(v, MaxRating as real)
  }

  /** @IsOptional, @IsString, @Length(1, 500). */
  predicate ValidComment(v: JsValue) {
    Absent(v) || (IsString(v) && Length(v, 1, MaxCommentLength))
  }

  /** The ValidationPipe on a review body. */
  function Validate(b: Body): (r: Result<ReviewInput>)
    ensures r.Ok? <==> b.unknownKeys == {} && ValidRating(b.rating) && ValidComment(b.comment)
    ensures r.Fail? ==> r.err == BadRequest
    ensures r.Ok? ==> MinRating <= r.value.rating <= MaxRating
    ensures r.Ok? ==> b.rating == Number(Finite(r.value.rating as real))
    ensures r.Ok? && r.value.comment.Some? ==>
      1 <= |r.value.comment.value| <= MaxCommentLength && b.comment == Str(r.value.comment.value)
    ensures r.Ok? ==> (r.value.comment.None? <==> Absent(b.comment))
  {
    if b.unknownKeys == {} && ValidRating(b.rating) && ValidComment(b.comment) then
      Ok(ReviewInput(b.rating.n.value.Floor, if Absent(b.comment) then None else Some(b.comment.s)))
    else
      Fail(BadRequest)
  }

  /** Every rating from 1 to 5, with or without a comment of 1 to 500
      characters, is accepted unchanged. */
  lemma AcceptsEveryWellFormedReview(rating: int, comment: Option<string>)
    requires MinRating <= rating <= MaxRating
    requires comment.Some? ==> 1 <= |comment.value| <= MaxCommentLength
    ensures Validate(Body(Number(Finite(rating as real)),
                          if comment.Some? then Str(comment.value) else Undefined, {}))
            == Ok(ReviewInput(rating, comment))
  {
    assert (rating as real).Floor == rating;
  }

  /** Fractional ratings, and the empty comment, are refused. */
  lemma RefusesFractionAndEmptyComment(x: real, c: JsValue)
    requires x.Floor as real != x || c == Str("")
    ensures Validate(Body(Number(Finite(x)), c, {})) == Fail(BadRequest)
  {
  }
}
