/**
 * The records the metadata service returns, reduced to the fields the
 * modelled logic reads. Optional fields (`poster_path`, `release_date`,
 * `credits`, `credits.cast`) are `Option`s because the screens reach them
 * through optional chaining.
 */
module Movies {
  import opened Wrappers

  /** One entry of `credits.cast`. */
  datatype CastMember = CastMember(id: int, name: string, profilePath: Option<string>)

  /** The `credits` expansion of a detail response. */
  datatype Credits = Credits(cast: Option<seq<CastMember>>)

  /**
   * A movie record: a list entry (summary) or a detail response. Summaries
   * carry `credits == None`. The id is the key of the favorites list.
   */
  datatype Movie = Movie(
    id: int,
    title: string,
    posterPath: Option<string>,
    releaseDate: Option<string>,
    credits: Option<Credits>)
}
