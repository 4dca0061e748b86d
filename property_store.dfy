/** The `Property` collection as the three write handlers of
    src/controllers/propertyController.ts change it: `createProperty`
    stamps the requester as owner, `updateProperty` and `deleteProperty`
    answer 404 for an unknown `_id` and 403 for a caller who is not the
    owner, and otherwise change that one document. */
module PropertyStore {
  import opened Common
  import opened PropertyModel

  /** Some stored document other than the one at `except` already has
      custom id `id` (the unique index would reject a second one). */
  predicate IdTakenElsewhere(s: seq<Property>, id: string, except: int) {
    exists j :: 0 <= j < |s| && j != except && s[j].id == id
  }

  /** Removing the document at `i` removes exactly the documents with its
      `_id` and nothing else. */
  lemma {:induction false} RemoveAtExact(s: seq<Property>, i: nat)
    requires i < |s| && UniqueOids(s)
    ensures forall p :: p in s[..i] + s[i + 1..] <==> p in s && p.oid != s[i].oid
  {
    var r := s[..i] + s[i + 1..];
    forall p | p in r ensures p in s && p.oid != s[i].oid {
      var k :| 0 <= k < |r| && r[k] == p;
      if k < i {
        assert r[k] == s[k];
      } else {
        assert r[k] == s[k + 1];
      }
    }
    forall p | p in s && p.oid != s[i].oid ensures p in r {
      var k :| 0 <= k < |s| && s[k] == p;
      if k < i {
        assert r[k] == p;
      } else {
        assert k != i;
        assert r[k - 1] == p;
      }
    }
  }

  /** Removing an element keeps both unique indexes. */
  lemma RemoveAtKeepsUnique(s: seq<Property>, i: nat)
    requires i < |s| && UniqueOids(s) && UniqueIds(s)
    ensures UniqueOids(s[..i] + s[i + 1..]) && UniqueIds(s[..i] + s[i + 1..])
  {
    var r := s[..i] + s[i + 1..];
    assert forall k :: 0 <= k < |r| ==> r[k] == s[if k < i then k else k + 1];
  }

  class PropertyTable {
    /** The stored documents, oldest insert first. */
    var items: seq<Property>
    /** Every `_id` handed out so far is below this. */
    var nextOid: ObjectId

    ghost predicate Valid()
      reads this
    {
      && UniqueOids(items)
      && UniqueIds(items)
      && forall i :: 0 <= i < |items| ==> items[i].oid < nextOid
    }

    constructor ()
      ensures Valid() && items == [] && nextOid == 0
    {
      items := [];
      nextOid := 0;
    }

    /** `createProperty`: `Property.create({ ...body, createdBy })`. A body
        missing a required field fails validation, and a custom id that is
        already taken fails the unique index; both are answered 500 and
        store nothing. */
    method Create(requester: UserId, body: PropertyBody, now: nat) returns (status: Status, created: Option<Property>)
      requires Valid()
      modifies this
      ensures Valid()
      ensures status == Created <==> HasRequired(body) && FindByCustomId(old(items), body.id.value).None?
      ensures status != Created ==> status == ServerError && created.None? && items == old(items)
      ensures status == Created ==>
                && created == Some(NewProperty(body, old(nextOid), requester, now))
                && created.value.createdBy == requester
                && items == old(items) + [created.value]
    {
      if !HasRequired(body) || FindByCustomId(items, body.id.value).Some? {
        return ServerError, None;
      }
      var p := NewProperty(body, nextOid, requester, now);
      items := items + [p];
      nextOid := nextOid + 1;
      return Created, Some(p);
    }

    /** `updateProperty`: `findById`, the owner check, then
        `findByIdAndUpdate(id, body, { new: true })`. Moving the custom id
        onto one another document holds violates the unique index (500);
        every other update by the owner succeeds. The update runs no
        schema validators, so it may blank a required field. */
    method Update(requester: UserId, oid: ObjectId, patch: PropertyPatch, now: nat)
      returns (status: Status, updated: Option<Property>)
      requires Valid()
      modifies this
      ensures Valid()
      ensures status == NotFound <==> IndexOfOid(old(items), oid).None?
      ensures status == Forbidden <==>
                IndexOfOid(old(items), oid).Some? && old(items)[IndexOfOid(old(items), oid).value].createdBy != requester
      ensures status != Ok ==> items == old(items) && updated.None?
      ensures status == Ok ==>
                var i := IndexOfOid(old(items), oid).value;
                && old(items)[i].createdBy == requester
                && updated == Some(ApplyPatch(old(items)[i], patch, now))
                && items == old(items)[i := updated.value]
      ensures status == ServerError <==>
                IndexOfOid(old(items), oid).Some?
                && var i := IndexOfOid(old(items), oid).value;
                   && old(items)[i].createdBy == requester
                   && IdTakenElsewhere(old(items), ApplyPatch(old(items)[i], patch, now).id, i)
      ensures status in {Ok, NotFound, Forbidden, ServerError}
    {
      var found := IndexOfOid(items, oid);
      if found.None? {
        return NotFound, None;
      }
      var i := found.value;
      if items[i].createdBy != requester {
        return Forbidden, None;
      }
      var p := ApplyPatch(items[i], patch, now);
      if IdTakenElsewhere(items, p.id, i) {
        return ServerError, None;
      }
      items := items[i := p];
      return Ok, Some(p);
    }

    /** `deleteProperty`: `findById`, the owner check, then
        `findByIdAndDelete`. */
    method Delete(requester: UserId, oid: ObjectId) returns (status: Status)
      requires Valid()
      modifies this
      ensures Valid()
      ensures status == NotFound <==> IndexOfOid(old(items), oid).None?
      ensures status == Forbidden <==>
                IndexOfOid(old(items), oid).Some? && old(items)[IndexOfOid(old(items), oid).value].createdBy != requester
      ensures status != Ok ==> items == old(items)
      ensures status == Ok ==>
                var i := IndexOfOid(old(items), oid).value;
                && old(items)[i].createdBy == requester
                && items == old(items)[..i] + old(items)[i + 1..]
                && forall p :: p in items <==> p in old(items) && p.oid != oid
      ensures status in {Ok, NotFound, Forbidden}
    {
      var found := IndexOfOid(items, oid);
      if found.None? {
        return NotFound;
      }
      var i := found.value;
      if items[i].createdBy != requester {
        return Forbidden;
      }
      RemoveAtExact(items, i);
      RemoveAtKeepsUnique(items, i);
      items := items[..i] + items[i + 1..];
      return Ok;
    }
  }
}
