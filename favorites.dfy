/** The favourites of src/controllers/favoriteController.ts: a collection
    of `(user, property)` links in which, by the unique compound index of
    src/models/Favorite.ts, no pair occurs twice. The property is looked
    up by its custom `id`; the link stores the property's `_id`. */
module Favorites {
  import opened Common
  import opened PropertyModel

  /** A `Favorite` document. */
  datatype Favorite = Favorite(oid: ObjectId, user: UserId, property: ObjectId, createdAt: nat)

  predicate SamePair(f: Favorite, user: UserId, property: ObjectId) {
    f.user == user && f.property == property
  }

  /** The unique index `{ user: 1, property: 1 }`. */
  predicate UniquePairs(s: seq<Favorite>) {
    forall i, j :: 0 <= i < j < |s| ==> !SamePair(s[j], s[i].user, s[i].property)
  }

  predicate UniqueFavoriteOids(s: seq<Favorite>) {
    forall i, j :: 0 <= i < j < |s| ==> s[i].oid != s[j].oid
  }

  /** `Favorite.findOne({ user, property })`: the position of the link, or
      nothing. */
  function FindLink(s: seq<Favorite>, user: UserId, property: ObjectId): (r: Option<nat>)
    ensures r.Some? ==> r.value < |s| && SamePair(s[r.value], user, property)
    ensures r.None? ==> forall i :: 0 <= i < |s| ==> !SamePair(s[i], user, property)
  {
    if s == [] then None
    else if SamePair(s[0], user, property) then Some(0)
    else match FindLink(s[1..], user, property)
      case None => None
      case Some(k) => Some(k + 1)
  }

  /** `getFavorites`: `Favorite.find({ user })`, in stored order. */
  function ForUser(s: seq<Favorite>, user: UserId): (r: seq<Favorite>)
    ensures forall f :: f in r <==> f in s && f.user == user
    ensures multiset(r) <= multiset(s)
    ensures |r| <= |s|
  {
    if s == [] then []
    else
      var rest := ForUser(s[1..], user);
      assert s == [s[0]] + s[1..];
      assert forall f :: f in s <==> f == s[0] || f in s[1..];
      if s[0].user == user then [s[0]] + rest else rest
  }

  /** A link just appended after checking its pair was absent is the one
      `findOne` finds. */
  lemma FindAppended(s: seq<Favorite>, f: Favorite)
    requires FindLink(s, f.user, f.property).None?
    ensures FindLink(s + [f], f.user, f.property) == Some(|s|)
  {
    FindLinkFirst(s + [f], |s|, f.user, f.property);
  }

  /** `findOne` returns the first matching link. */
  lemma {:induction false} FindLinkFirst(s: seq<Favorite>, k: nat, user: UserId, property: ObjectId)
    requires k < |s| && SamePair(s[k], user, property)
    requires forall i :: 0 <= i < k ==> !SamePair(s[i], user, property)
    ensures FindLink(s, user, property) == Some(k)
  {
    if k > 0 {
      FindLinkFirst(s[1..], k - 1, user, property);
    }
  }

  /** Deleting the link at `i` of a uniquely indexed set removes exactly
      the links with its pair and leaves every other link in place. */
  lemma {:induction false} RemoveLinkExact(s: seq<Favorite>, i: nat)
    requires i < |s| && UniquePairs(s)
    ensures forall f :: f in s[..i] + s[i + 1..] <==> f in s && !SamePair(f, s[i].user, s[i].property)
  {
    var r := s[..i] + s[i + 1..];
    forall f | f in r ensures f in s && !SamePair(f, s[i].user, s[i].property) {
      var k :| 0 <= k < |r| && r[k] == f;
      if k < i {
        assert r[k] == s[k];
      } else {
        assert r[k] == s[k + 1];
      }
    }
    forall f | f in s && !SamePair(f, s[i].user, s[i].property) ensures f in r {
      var k :| 0 <= k < |s| && s[k] == f;
      if k < i {
        assert r[k] == f;
      } else {
        assert r[k - 1] == f;
      }
    }
  }

  lemma RemoveLinkKeepsUnique(s: seq<Favorite>, i: nat)
    requires i < |s| && UniquePairs(s) && UniqueFavoriteOids(s)
    ensures UniquePairs(s[..i] + s[i + 1..]) && UniqueFavoriteOids(s[..i] + s[i + 1..])
  {
    var r := s[..i] + s[i + 1..];
    assert forall k :: 0 <= k < |r| ==> r[k] == s[if k < i then k else k + 1];
  }

  /** Round trip: removing the link a successful add appended gives back
      the original set. */
  lemma AddThenRemoveRestores(s: seq<Favorite>, f: Favorite)
    requires FindLink(s, f.user, f.property).None?
    ensures FindLink(s + [f], f.user, f.property) == Some(|s|)
    ensures (s + [f])[..|s|] + (s + [f])[|s| + 1..] == s
  {
    FindAppended(s, f);
    var t := s + [f];
    assert t[..|s|] == s;
  }

  datatype AddOutcome = AddPropertyMissing | AlreadyFavorite | Added(favorite: Favorite) {
    function Status(): Status {
      match this
      case AddPropertyMissing => NotFound
      case AlreadyFavorite => BadRequest
      case Added(_) => Created
    }
  }

  datatype RemoveOutcome = RemovePropertyMissing | FavoriteMissing | Removed {
    function Status(): Status {
      match this
      case RemovePropertyMissing => NotFound
      case FavoriteMissing => NotFound
      case Removed => Ok
    }
  }

  class FavoriteSet {
    /** The stored links, oldest first. */
    var links: seq<Favorite>
    /** Every `_id` handed out so far is below this. */
    var nextOid: ObjectId

    ghost predicate Valid()
      reads this
    {
      && UniquePairs(links)
      && UniqueFavoriteOids(links)
      && forall i :: 0 <= i < |links| ==> links[i].oid < nextOid
    }

    constructor ()
      ensures Valid() && links == [] && nextOid == 0
    {
      links := [];
      nextOid := 0;
    }

    /** `getFavorites`. */
    function Of(user: UserId): (r: seq<Favorite>)
      reads this
      ensures forall f :: f in r <==> f in links && f.user == user
      ensures multiset(r) <= multiset(links)
    {
      ForUser(links, user)
    }

    /** `addFavorite`: 404 when no property has the custom id, 400 when the
        requester already has that property's `_id` linked, otherwise one
        new link and 201. */
    method Add(requester: UserId, propertyId: string, properties: seq<Property>, now: nat)
      returns (outcome: AddOutcome)
      requires Valid()
      modifies this
      ensures Valid()
      ensures outcome.AddPropertyMissing? <==> FindByCustomId(properties, propertyId).None?
      ensures outcome.AlreadyFavorite? <==>
                FindByCustomId(properties, propertyId).Some?
                && FindLink(old(links), requester, FindByCustomId(properties, propertyId).value.oid).Some?
      ensures !outcome.Added? ==> links == old(links) && nextOid == old(nextOid)
      ensures outcome.Added? ==>
                var p := FindByCustomId(properties, propertyId).value;
                && outcome.favorite == Favorite(old(nextOid), requester, p.oid, now)
                && links == old(links) + [outcome.favorite]
    {
      var property := FindByCustomId(properties, propertyId);
      if property.None? {
        return AddPropertyMissing;
      }
      var existing := FindLink(links, requester, property.value.oid);
      if existing.Some? {
        return AlreadyFavorite;
      }
      var f := Favorite(nextOid, requester, property.value.oid, now);
      links := links + [f];
      nextOid := nextOid + 1;
      return Added(f);
    }

    /** `removeFavorite`: 404 when no property has the custom id, 404 when
        the requester has no link to it, otherwise that one link is
        deleted. */
    method Remove(requester: UserId, propertyId: string, properties: seq<Property>)
      returns (outcome: RemoveOutcome)
      requires Valid()
      modifies this
      ensures Valid()
      ensures nextOid == old(nextOid)
      ensures outcome.RemovePropertyMissing? <==> FindByCustomId(properties, propertyId).None?
      ensures outcome.FavoriteMissing? <==>
                FindByCustomId(properties, propertyId).Some?
                && FindLink(old(links), requester, FindByCustomId(properties, propertyId).value.oid).None?
      ensures !outcome.Removed? ==> links == old(links)
      ensures outcome.Removed? ==>
                var p := FindByCustomId(properties, propertyId).value;
                var i := FindLink(old(links), requester, p.oid).value;
                && links == old(links)[..i] + old(links)[i + 1..]
                && forall f :: f in links <==> f in old(links) && !SamePair(f, requester, p.oid)
    {
      var property := FindByCustomId(properties, propertyId);
      if property.None? {
        return RemovePropertyMissing;
      }
      var found := FindLink(links, requester, property.value.oid);
      if found.None? {
        return FavoriteMissing;
      }
      var i := found.value;
      RemoveLinkExact(links, i);
      RemoveLinkKeepsUnique(links, i);
      links := links[..i] + links[i + 1..];
      return Removed;
    }
  }

  /** A successful add followed by a remove of the same property restores
      the link set; a second add of the same property is refused. */
  method AddRemoveRoundTrip(favorites: FavoriteSet, requester: UserId, propertyId: string,
                            properties: seq<Property>, now: nat)
    returns (first: AddOutcome, second: AddOutcome, removed: RemoveOutcome)
    requires favorites.Valid()
    modifies favorites
    ensures favorites.Valid()
    ensures first.Added? ==> second == AlreadyFavorite && removed == Removed
    ensures first.Added? ==> favorites.links == old(favorites.links)
  {
    first := favorites.Add(requester, propertyId, properties, now);
    second := favorites.Add(requester, propertyId, properties, now);
    if first.Added? {
      FindAppended(old(favorites.links), first.favorite);
    }
    removed := favorites.Remove(requester, propertyId, properties);
    if first.Added? {
      AddThenRemoveRestores(old(favorites.links), first.favorite);
    }
  }
}
