/** Ratings and their store. Unlike media entries, a rating is stored by
    reference: the handler fetches the stored object, assigns its fields and
    saves it again. A rating receives its id on its first save. */
module Ratings {
  import opened Common
  import opened Accounts

  /** A rating. The nullable text fields are kept as options; the
      properties read them with "" for null. */
  class Rating {
    var isNew: bool
    var id: int
    var userName: Option<string>
    var mediaId: int
    var value: int
    var comment: Option<string>
    const atom: Atom

    constructor(session: Option<Session>)
      ensures isNew && id == 0 && userName == None && mediaId == 0 && value == 0 && comment == None
      ensures fresh(atom) && atom.editing == session
    {
      isNew, id, userName, mediaId, value, comment := true, 0, None, 0, 0, None;
      atom := new Atom(session);
    }

    /** The UserName property: "" while unset. */
    function UserName(): (s: string)
      reads this
      ensures userName.None? ==> s == ""
      ensures userName.Some? ==> s == userName.value
    {
      userName.GetOr("")
    }

    /** The Comment property: "" while unset. */
    function Comment(): (s: string)
      reads this
      ensures comment.None? ==> s == ""
      ensures comment.Some? ==> s == comment.value
    {
      comment.GetOr("")
    }

    /** Rating.Save: the first save takes the counter as id and increments
        it; every save stores this object under its id. There is no
        authorization check. A rating that is no longer new got its id from
        this store, hence below the counter. */
    method Save(store: RatingStore)
      requires store.Valid()
      requires !isNew ==> 1 <= id < store.nextId
      modifies this, atom, store
      ensures store.Valid()
      ensures !isNew && atom.editing == None
      ensures old(isNew) ==> id == old(store.nextId) && id !in old(store.ratings)
                             && store.nextId == old(store.nextId) + 1
      ensures !old(isNew) ==> id == old(id) && store.nextId == old(store.nextId)
      ensures store.ratings == old(store.ratings)[id := this]
      ensures userName == old(userName) && mediaId == old(mediaId) && value == old(value)
      ensures comment == old(comment)
    {
      if isNew {
        id := store.nextId;
        store.nextId := store.nextId + 1;
        store.ratings := store.ratings[id := this];
        isNew := false;
      } else {
        store.ratings := store.ratings[id := this];
      }
      atom.EndEdit();
    }

    /** Rating.Delete: remove whatever is stored under this id, if anything.
        There is no authorization check. */
    method Delete(store: RatingStore)
      requires store.Valid()
      modifies atom, store
      ensures store.Valid()
      ensures store.ratings == old(store.ratings) - {id} && store.nextId == old(store.nextId)
      ensures atom.editing == None
    {
      if id in store.ratings {
        store.ratings := store.ratings - {id};
      }
      atom.EndEdit();
    }

    /** Rating.Refresh: copy the data fields from the rating stored under
        this id, if there is one. */
    method Refresh(store: RatingStore)
      requires store.Valid()
      modifies this, atom
      ensures store.Valid()
      ensures old(id in store.ratings) ==>
                var stored := old(store.ratings[id]);
                userName == old(stored.userName) && mediaId == old(stored.mediaId)
                && value == old(stored.value) && comment == old(stored.comment)
      ensures old(id !in store.ratings) ==>
                userName == old(userName) && mediaId == old(mediaId)
                && value == old(value) && comment == old(comment)
      ensures id == old(id) && isNew == old(isNew) && atom.editing == None
    {
      if id in store.ratings {
        var r := store.ratings[id];
        userName, mediaId, value, comment := r.userName, r.mediaId, r.value, r.comment;
      }
      atom.EndEdit();
    }
  }

  /** _Ratings and _NextId. */
  class RatingStore {
    var ratings: map<int, Rating>
    var nextId: int

    /** Every stored rating has been saved, sits under its own id, and that
        id was handed out by the counter, which starts at 1. */
    ghost predicate Valid()
      reads this, ratings.Values
    {
      1 <= nextId
      && forall k :: k in ratings ==> 1 <= k < nextId && ratings[k].id == k && !ratings[k].isNew
    }

    constructor()
      ensures Valid() && ratings == map[] && nextId == 1
    {
      ratings := map[];
      nextId := 1;
    }

    /** Rating.Get(id): the stored object, which carries that id, or null. */
    function Get(id: int): (r: Rating?)
      requires Valid()
      reads this, ratings.Values
      ensures r != null <==> id in ratings
      ensures r != null ==> r == ratings[id] && r.id == id && !r.isNew && r.id < nextId
    {
      if id in ratings then ratings[id] else null
    }
  }
}
