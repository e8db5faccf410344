/** Media entries (movies, series, games) and their store: the entry
    dictionary and the counter the constructor draws ids from. */
module Media {
  import opened Common
  import opened Text

  datatype MediaType = Movie | Series | Game

  /** A media entry. `id` and `createdBy` are fixed at construction; the
      other fields are overwritten by an update. */
  datatype MediaEntry = MediaEntry(
    id: int,
    title: string,
    description: string,
    mediaType: MediaType,
    releaseYear: int,
    genres: seq<string>,
    ageRestriction: int,
    createdBy: string)

  const CreatorRequired: string := "Creator username must not be empty."
  const TitleRequired: string := "Title must not be empty."

  /** The entry an update with these values makes of `e`. */
  function Updated(e: MediaEntry, title: string, description: string, mediaType: MediaType,
                   releaseYear: int, genres: Option<seq<string>>, ageRestriction: int): (r: MediaEntry)
    ensures r.id == e.id && r.createdBy == e.createdBy
    ensures r.genres == (if genres.Some? then genres.value else [])
  {
    e.(title := title, description := description, mediaType := mediaType,
       releaseYear := releaseYear, genres := genres.GetOr([]), ageRestriction := ageRestriction)
  }

  /** The entries stored under ids 1 .. n - 1, in increasing id order. */
  function Listing(entries: map<int, MediaEntry>, n: int): seq<MediaEntry>
    decreases n
  {
    if n <= 1 then [] else Listing(entries, n - 1) + (if n - 1 in entries then [entries[n - 1]] else [])
  }

  /** The listing below n holds exactly the stored entries with ids from 1
      to n - 1, each once, in increasing id order. */
  lemma {:induction false} ListingMeaning(entries: map<int, MediaEntry>, n: int)
    requires forall k :: k in entries ==> entries[k].id == k
    ensures forall i :: 0 <= i < |Listing(entries, n)| ==>
              var e := Listing(entries, n)[i]; 1 <= e.id < n && e.id in entries && entries[e.id] == e
    ensures forall i, j :: 0 <= i < j < |Listing(entries, n)| ==> Listing(entries, n)[i].id < Listing(entries, n)[j].id
    ensures forall k :: k in entries && 1 <= k < n ==> entries[k] in Listing(entries, n)
    decreases n
  {
    if n > 1 {
      ListingMeaning(entries, n - 1);
    }
  }

  /** _MediaEntries and _NextId. */
  class MediaStore {
    var entries: map<int, MediaEntry>
    var nextId: int

    /** Every stored entry sits under its own id, and every id handed out so
        far is below the counter, which starts at 1. */
    ghost predicate Valid()
      reads this
    {
      1 <= nextId && forall k :: k in entries ==> 1 <= k < nextId && entries[k].id == k
    }

    constructor()
      ensures Valid() && entries == map[] && nextId == 1
    {
      entries := map[];
      nextId := 1;
    }

    /** The MediaEntry constructor: take the counter as the id, then
        increment it. The entry is not stored yet. */
    method NewEntry(createdBy: string) returns (e: MediaEntry)
      requires Valid()
      modifies this
      ensures Valid()
      ensures e == MediaEntry(old(nextId), "", "", Movie, 0, [], 0, createdBy)
      ensures e.id !in entries
      ensures entries == old(entries) && nextId == old(nextId) + 1
    {
      e := MediaEntry(nextId, "", "", Movie, 0, [], 0, createdBy);
      nextId := nextId + 1;
    }

    /** MediaEntry.Create: validate, construct, fill in, store. Validation
        comes first, so a rejected call uses up no id. */
    method Create(createdBy: string, title: string, description: string, mediaType: MediaType,
                  releaseYear: int, genres: Option<seq<string>>, ageRestriction: int)
      returns (r: Result<MediaEntry>)
      requires Valid()
      modifies this
      ensures Valid()
      ensures r.Err? <==> IsBlank(createdBy) || IsBlank(title)
      ensures r.Err? ==> r.message == (if IsBlank(createdBy) then CreatorRequired else TitleRequired)
      ensures r.Err? ==> entries == old(entries) && nextId == old(nextId)
      ensures r.Ok? ==> r.value == MediaEntry(old(nextId), title, description, mediaType, releaseYear,
                                              genres.GetOr([]), ageRestriction, createdBy)
      ensures r.Ok? ==> r.value.id !in old(entries)
      ensures r.Ok? ==> entries == old(entries)[r.value.id := r.value] && nextId == old(nextId) + 1
    {
      if IsBlank(createdBy) {
        return Err(CreatorRequired);
      }
      if IsBlank(title) {
        return Err(TitleRequired);
      }
      var entry := NewEntry(createdBy);
      entry := entry.(title := title, description := description, mediaType := mediaType,
                      releaseYear := releaseYear, genres := genres.GetOr([]),
                      ageRestriction := ageRestriction);
      entries := entries[entry.id := entry];
      return Ok(entry);
    }

    /** MediaEntry.Get(id): the entry stored under `id`, which carries that
        id, or null. */
    function Get(id: int): (e: Option<MediaEntry>)
      requires Valid()
      reads this
      ensures e.Some? <==> id in entries
      ensures e.Some? ==> e.value == entries[id] && e.value.id == id && e.value.id < nextId
    {
      if id in entries then Some(entries[id]) else None
    }

    /** MediaEntry.GetAll(): every stored entry exactly once, listed in
        increasing id order. */
    method GetAll() returns (all: seq<MediaEntry>)
      requires Valid()
      ensures all == Listing(entries, nextId)
      ensures forall e :: e in all <==> e in entries.Values
      ensures forall i, j :: 0 <= i < j < |all| ==> all[i].id < all[j].id
    {
      all := [];
      var id := 1;
      while id < nextId
        invariant 1 <= id <= nextId
        invariant all == Listing(entries, id)
      {
        if id in entries {
          all := all + [entries[id]];
        }
        id := id + 1;
      }
      ListingMeaning(entries, nextId);
      forall e | e in entries.Values
        ensures e in all
      {
        var k :| k in entries && entries[k] == e;
      }
    }

    /** MediaEntry.Update: a missing id gives null and changes nothing;
        otherwise the editable fields are overwritten, whoever asks. */
    method Update(id: int, updatedBy: string, title: string, description: string, mediaType: MediaType,
                  releaseYear: int, genres: Option<seq<string>>, ageRestriction: int)
      returns (r: Option<MediaEntry>)
      requires Valid()
      modifies this
      ensures Valid()
      ensures r.None? <==> id !in old(entries)
      ensures r.None? ==> entries == old(entries)
      ensures r.Some? ==> r.value == Updated(old(entries)[id], title, description, mediaType,
                                             releaseYear, genres, ageRestriction)
      ensures r.Some? ==> entries == old(entries)[id := r.value]
      ensures nextId == old(nextId)
    {
      if id !in entries {
        return None;
      }
      var entry := Updated(entries[id], title, description, mediaType, releaseYear, genres, ageRestriction);
      entries := entries[id := entry];
      return Some(entry);
    }

    /** MediaEntry.Delete: remove the id if present, whoever asks. */
    method Delete(id: int, deletedBy: string) returns (deleted: bool)
      requires Valid()
      modifies this
      ensures Valid()
      ensures deleted <==> id in old(entries)
      ensures entries == old(entries) - {id} && nextId == old(nextId)
    {
      if id !in entries {
        return false;
      }
      entries := entries - {id};
      return true;
    }
  }
}
