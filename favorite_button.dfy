/**
 * The favourite button: its flag starts as the event's membership in the
 * stored list, and a click removes the event from the list or appends it,
 * according to the flag.
 */
module FavoriteButton {
  import opened Wrappers
  import opened Lists

  /** `JSON.parse(localStorage.getItem('favoriteEvents') || '[]')`, with
   *  `item` the parsed stored list (None: nothing stored). */
  function StoredFavorites(item: Option<seq<string>>): (r: seq<string>)
    ensures item.None? ==> r == []
    ensures item.Some? ==> r == item.value
  {
    item.GetOr([])
  }

  class Favorite {
    const eventId: string
    var isFavorite: bool

    /** The mount effect: the flag is the event's membership in the list. */
    constructor(eventId: string, item: Option<seq<string>>)
      ensures this.eventId == eventId
      ensures isFavorite <==> eventId in StoredFavorites(item)
    {
      this.eventId := eventId;
      isFavorite := eventId in StoredFavorites(item);
    }

    /** The flag agrees with the stored list. */
    predicate InSync(favorites: seq<string>)
      reads this
    {
      isFavorite <==> eventId in favorites
    }

    /** `toggleFavorite`: reads the stored list again, and `written` is what
     *  it stores. A favourite loses every occurrence of the event; anything
     *  else gets the event appended, even when the list already holds it. */
    method Click(item: Option<seq<string>>) returns (written: seq<string>)
      modifies this
      ensures old(isFavorite) ==> written == Without(StoredFavorites(item), eventId) && !isFavorite
      ensures !old(isFavorite) ==> written == StoredFavorites(item) + [eventId] && isFavorite
      ensures old(InSync(StoredFavorites(item))) ==> written == Lists.Toggle(StoredFavorites(item), eventId)
      ensures InSync(written)
    {
      var favorites := StoredFavorites(item);
      if isFavorite {
        written := Without(favorites, eventId);
        isFavorite := false;
      } else {
        written := favorites + [eventId];
        isFavorite := true;
      }
    }
  }

  /** A click on a flag that fell behind the list appends the event a
   *  second time. */
  lemma StaleFlagDuplicates(favorites: seq<string>, eventId: string)
    requires eventId in favorites
    ensures multiset(favorites + [eventId])[eventId] >= 2
  {
    assert multiset(favorites + [eventId]) == multiset(favorites) + multiset{eventId};
  }
}
