/**
 * The favorites store: an in-memory list of movie records keyed by id,
 * written through to the durable `@favorites` slot after every mutation
 * and hydrated from it once at mount.
 */
module Favorites {
  import opened Wrappers
  import opened Movies

  // ---------------------------------------------------------------------
  // The durable slot and its (abstract) serialization

  /**
   * The text held in the slot, seen through `JSON.parse`: either the
   * serialization of a list of records, or some other text (which
   * `JSON.parse` rejects, or which is the empty string).
   */
  datatype Stored = Json(items: seq<Movie>) | Text(raw: string)

  /** `JSON.stringify(list)`. */
  function Serialize(items: seq<Movie>): (r: Stored)
    ensures Truthy(r)
    ensures Parse(r) == Some(items)
  {
    Json(items)
  }

  /** `JSON.parse(text)`, with `None` for a parse error. */
  function Parse(s: Stored): (r: Option<seq<Movie>>)
    ensures r.Some? <==> s.Json?
    ensures r.Some? ==> s == Json(r.value)
  {
    match s
    case Json(items) => Some(items)
    case Text(_) => None
  }

  /** Truthiness of the text: only the empty string is falsy. */
  predicate Truthy(s: Stored)
    ensures !Truthy(s) <==> s == Text("")
  {
    match s
    case Json(_) => true
    case Text(raw) => raw != ""
  }

  /**
   * The list after `loadFavorites` read `slot` (`None`: the key is absent):
   * the parsed content when the text is non-empty and parses, otherwise the
   * current list.
   */
  function Hydrated(current: seq<Movie>, slot: Option<Stored>): (r: seq<Movie>)
    ensures r == current || (slot.Some? && Parse(slot.value) == Some(r))
    ensures slot.None? || !Truthy(slot.value) || Parse(slot.value).None? ==> r == current
    ensures slot.Some? && Truthy(slot.value) && Parse(slot.value).Some? ==> r == Parse(slot.value).value
  {
    if slot.Some? && Truthy(slot.value) then
      match Parse(slot.value)
      case Some(items) => items
      case None => current
    else current
  }

  /** Reading back a slot written from `items` restores exactly `items`. */
  lemma HydrateAfterWrite(current: seq<Movie>, items: seq<Movie>)
    ensures Hydrated(current, Some(Serialize(items))) == items
  {
  }

  // ---------------------------------------------------------------------
  // The pure list operations behind the store

  /** `list.some(movie => movie.id === id)`. */
  function Contains(list: seq<Movie>, id: int): (r: bool)
    ensures r <==> exists i :: 0 <= i < |list| && list[i].id == id
  {
    if list == [] then false
    else if list[0].id == id then true
    else
      var r := Contains(list[1..], id);
      assert forall i :: 1 <= i < |list| ==> list[i] == list[1..][i - 1];
      r
  }

  /** `list.filter(movie => movie.id !== id)`. */
  function WithoutId(list: seq<Movie>, id: int): (r: seq<Movie>)
    ensures |r| <= |list|
    ensures forall x :: x in r <==> x in list && x.id != id
  {
    if list == [] then []
    else if list[0].id != id then [list[0]] + WithoutId(list[1..], id)
    else WithoutId(list[1..], id)
  }

  /** The number of entries of `list` whose id is `id`. */
  function CountId(list: seq<Movie>, id: int): nat
  {
    if list == [] then 0
    else (if list[0].id == id then 1 else 0) + CountId(list[1..], id)
  }

  /** `a` is `b` with some entries left out, the rest in their order. */
  predicate IsSubsequence(a: seq<Movie>, b: seq<Movie>)
  {
    a == [] || (b != [] && ((a[0] == b[0] && IsSubsequence(a[1..], b[1..])) || IsSubsequence(a, b[1..])))
  }

  lemma {:induction false} ContainsIffCounted(list: seq<Movie>, id: int)
    ensures Contains(list, id) <==> CountId(list, id) > 0
  {
    if list != [] {
      ContainsIffCounted(list[1..], id);
    }
  }

  lemma {:induction false} CountIdAppend(a: seq<Movie>, b: seq<Movie>, id: int)
    ensures CountId(a + b, id) == CountId(a, id) + CountId(b, id)
  {
    if a != [] {
      assert (a + b)[1..] == a[1..] + b;
      CountIdAppend(a[1..], b, id);
    } else {
      assert a + b == b;
    }
  }

  /** Appending never deduplicates: the new entry always adds one to its id's count. */
  lemma AppendAddsOne(list: seq<Movie>, movie: Movie)
    ensures CountId(list + [movie], movie.id) == CountId(list, movie.id) + 1
  {
    CountIdAppend(list, [movie], movie.id);
  }

  /** Adding a movie whose id is already present leaves at least two entries with that id. */
  lemma AppendPresentDuplicates(list: seq<Movie>, movie: Movie)
    requires Contains(list, movie.id)
    ensures CountId(list + [movie], movie.id) >= 2
  {
    ContainsIffCounted(list, movie.id);
    AppendAddsOne(list, movie);
  }

  /** Filtering keeps the surviving entries in their original order. */
  lemma {:induction false} WithoutIdKeepsOrder(list: seq<Movie>, id: int)
    ensures IsSubsequence(WithoutId(list, id), list)
  {
    if list != [] {
      WithoutIdKeepsOrder(list[1..], id);
      var r := WithoutId(list, id);
      if list[0].id != id {
        assert r[0] == list[0] && r[1..] == WithoutId(list[1..], id);
      }
    }
  }

  /** Filtering keeps every entry with another id as often as it occurred, and none with `id`. */
  lemma {:induction false} WithoutIdMultiplicity(list: seq<Movie>, id: int, x: Movie)
    ensures multiset(WithoutId(list, id))[x] == if x.id == id then 0 else multiset(list)[x]
  {
    if list != [] {
      WithoutIdMultiplicity(list[1..], id, x);
      assert list == [list[0]] + list[1..];
    }
  }

  /** Removing an id nobody has leaves the list as it was. */
  lemma {:induction false} WithoutAbsentId(list: seq<Movie>, id: int)
    requires !Contains(list, id)
    ensures WithoutId(list, id) == list
  {
    if list != [] {
      WithoutAbsentId(list[1..], id);
      assert list == [list[0]] + list[1..];
    }
  }

  lemma {:induction false} WithoutIdAppend(a: seq<Movie>, b: seq<Movie>, id: int)
    ensures WithoutId(a + b, id) == WithoutId(a, id) + WithoutId(b, id)
  {
    if a != [] {
      assert (a + b)[0] == a[0] && (a + b)[1..] == a[1..] + b;
      WithoutIdAppend(a[1..], b, id);
    } else {
      assert a + b == b;
    }
  }

  /** Adding a movie and then removing its id leaves the list as filtering alone would. */
  lemma AddThenRemove(list: seq<Movie>, movie: Movie)
    ensures WithoutId(list + [movie], movie.id) == WithoutId(list, movie.id)
  {
    WithoutIdAppend(list, [movie], movie.id);
    assert WithoutId([movie], movie.id) == [];
  }

  // ---------------------------------------------------------------------
  // The provider's state

  /**
   * `FavoritesProvider`: `favorites` is the published in-memory list,
   * `stored` the `@favorites` slot (`None` while the key is absent).
   * Storage outcomes are parameters: `readOk` / `writeOk` is false when
   * `getItem` / `setItem` rejects.
   */
  class FavoritesStore {
    var favorites: seq<Movie>
    var stored: Option<Stored>

    /** Mount: `useState([])`, with the slot as the device holds it. */
    constructor (slot: Option<Stored>)
      ensures favorites == [] && stored == slot
    {
      favorites := [];
      stored := slot;
    }

    /** `isFavorite(movieId)`. */
    function IsFavorite(movieId: int): (r: bool)
      reads this
      ensures r <==> exists i :: 0 <= i < |favorites| && favorites[i].id == movieId
    {
      Contains(favorites, movieId)
    }

    /** Memory and the slot agree. */
    predicate InSync()
      reads this
    {
      stored == Some(Serialize(favorites))
    }

    /** `loadFavorites`: read the slot and publish its content if there is one. */
    method LoadFavorites(readOk: bool)
      modifies this
      ensures stored == old(stored)
      ensures favorites == if readOk then Hydrated(old(favorites), stored) else old(favorites)
    {
      if readOk {
        var slot := stored;
        if slot.Some? && Truthy(slot.value) {
          var parsed := Parse(slot.value);
          if parsed.Some? {
            favorites := parsed.value;
          }
        }
      }
    }

    /** `addFavorite`: publish the list with `movie` appended, then write it through. */
    method AddFavorite(movie: Movie, writeOk: bool)
      modifies this
      ensures favorites == old(favorites) + [movie]
      ensures stored == if writeOk then Some(Serialize(favorites)) else old(stored)
      ensures IsFavorite(movie.id)
      ensures CountId(favorites, movie.id) == CountId(old(favorites), movie.id) + 1
      ensures writeOk ==> InSync()
      ensures old(InSync()) && !writeOk ==> !InSync()
    {
      var newFavorites := favorites + [movie];
      favorites := newFavorites;
      AppendAddsOne(old(favorites), movie);
      assert favorites[|favorites| - 1] == movie;
      if writeOk {
        stored := Some(Serialize(newFavorites));
      } else {
        assert |newFavorites| == |old(favorites)| + 1;
      }
    }

    /** `removeFavorite`: publish the list without `movieId`, then write it through. */
    method RemoveFavorite(movieId: int, writeOk: bool)
      modifies this
      ensures favorites == WithoutId(old(favorites), movieId)
      ensures stored == if writeOk then Some(Serialize(favorites)) else old(stored)
      ensures !IsFavorite(movieId)
      ensures !old(IsFavorite(movieId)) ==> favorites == old(favorites)
      ensures writeOk ==> InSync()
      ensures old(InSync()) && !writeOk ==> (InSync() <==> !old(IsFavorite(movieId)))
    {
      var newFavorites := WithoutId(favorites, movieId);
      if !Contains(favorites, movieId) {
        WithoutAbsentId(favorites, movieId);
      } else {
        ContainsIffCounted(favorites, movieId);
        ContainsIffCounted(newFavorites, movieId);
      }
      favorites := newFavorites;
      if writeOk {
        stored := Some(Serialize(newFavorites));
      }
    }
  }
}
