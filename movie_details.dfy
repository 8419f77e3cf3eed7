/**
 * The logic of the movie details screen: the favorite toggle over the
 * store, the year shown from the release date and the capped cast list.
 */
module MovieDetails {
  import opened Wrappers
  import opened Movies
  import opened Strings
  import opened Favorites

  /** At most this many cast members are shown (`slice(0, 10)`). */
  const MaxCast := 10

  /** The list a toggle produces: remove every entry with the movie's id if one is present, else append the movie. */
  function Toggled(list: seq<Movie>, movie: Movie): (r: seq<Movie>)
    ensures forall x: Movie :: x.id != movie.id ==> (x in r <==> x in list)
    ensures |r| <= |list| + 1
  {
    if Contains(list, movie.id) then WithoutId(list, movie.id) else list + [movie]
  }

  /** A toggle flips membership. */
  lemma ToggleFlips(list: seq<Movie>, movie: Movie)
    ensures Contains(Toggled(list, movie), movie.id) == !Contains(list, movie.id)
  {
    var l := list + [movie];
    assert l[|l| - 1].id == movie.id;
  }

  /** From a list without the movie, toggling twice restores the list. */
  lemma ToggleTwiceRestores(list: seq<Movie>, movie: Movie)
    requires !Contains(list, movie.id)
    ensures Toggled(Toggled(list, movie), movie) == list
  {
    ToggleFlips(list, movie);
    AddThenRemove(list, movie);
    WithoutAbsentId(list, movie.id);
  }

  /**
   * From a list that has the movie, toggling twice leaves the other
   * entries in order and a single copy of the movie at the end: duplicates
   * collapse and the entry moves.
   */
  lemma ToggleTwiceFromFavorite(list: seq<Movie>, movie: Movie)
    requires Contains(list, movie.id)
    ensures Toggled(Toggled(list, movie), movie) == WithoutId(list, movie.id) + [movie]
    ensures CountId(Toggled(Toggled(list, movie), movie), movie.id) == 1
  {
    var r := WithoutId(list, movie.id);
    ToggleFlips(list, movie);
    ContainsIffCounted(r, movie.id);
    AppendAddsOne(r, movie);
  }

  /** `toggleFavorite`: ask the store, then remove or add through it. */
  method ToggleFavorite(store: FavoritesStore, movie: Movie, writeOk: bool)
    modifies store
    ensures store.favorites == Toggled(old(store.favorites), movie)
    ensures store.stored == if writeOk then Some(Serialize(store.favorites)) else old(store.stored)
    ensures store.IsFavorite(movie.id) == !old(store.IsFavorite(movie.id))
  {
    if store.IsFavorite(movie.id) {
      store.RemoveFavorite(movie.id, writeOk);
    } else {
      store.AddFavorite(movie, writeOk);
    }
  }

  /**
   * The year in the meta row, `movie.release_date?.split('-')[0]`: nothing
   * without a date, otherwise the part of the date before its first `-`.
   */
  function ShownYear(releaseDate: Option<string>): (r: Option<string>)
    ensures r.Some? <==> releaseDate.Some?
    ensures r.Some? ==>
      && r.value <= releaseDate.value
      && '-' !in r.value
      && (r.value == releaseDate.value || releaseDate.value[|r.value|] == '-')
  {
    match releaseDate
    case None => None
    case Some(date) => Some(FirstField(date, '-'))
  }

  /**
   * The cast section: absent unless `credits.cast` exists and is non-empty,
   * and then the first `min(10, |cast|)` members in order.
   */
  function ShownCast(credits: Option<Credits>): (r: Option<seq<CastMember>>)
    ensures r.Some? <==> credits.Some? && credits.value.cast.Some? && |credits.value.cast.value| > 0
    ensures r.Some? ==>
      var cast := credits.value.cast.value;
      && |r.value| == (if |cast| < MaxCast then |cast| else MaxCast)
      && r.value <= cast
  {
    if credits.Some? && credits.value.cast.Some? && |credits.value.cast.value| > 0 then
      var cast := credits.value.cast.value;
      Some(if |cast| < MaxCast then cast else cast[..MaxCast])
    else None
  }
}
