/** The property document of `src/models/Property.ts`, the body a
    client posts to create one, the partial body it sends to update one,
    and the two lookups the controllers use: by `_id` and by the custom
    unique `id` field. */
module PropertyModel {
  import opened Common

  /** A stored property. `oid` is the MongoDB `_id`; `id` is the
      schema's own unique string id. Numbers (price, area, rating) are
      integers here. `createdAt` / `updatedAt` are the automatic
      timestamps, read from a logical clock. */
  datatype Property = Property(
    oid: ObjectId,
    id: string,
    title: string,
    kind: string,
    price: int,
    state: string,
    city: string,
    areaSqFt: int,
    bedrooms: int,
    bathrooms: int,
    amenities: seq<string>,
    furnished: bool,
    availableFrom: nat,
    listedBy: string,
    tags: seq<string>,
    colorTheme: string,
    rating: int,
    isVerified: bool,
    listingType: string,
    createdBy: UserId,
    createdAt: nat,
    updatedAt: nat)

  /** The sort key of every newest-first listing. */
  function CreatedAt(p: Property): int {
    p.createdAt
  }

  /** A create request body. Fields the schema requires may be missing
      (validation then fails); fields with a schema default may be
      omitted. A client-sent `createdBy` is carried but never used. */
  datatype PropertyBody = PropertyBody(
    id: Option<string>,
    title: Option<string>,
    kind: Option<string>,
    price: Option<int>,
    state: Option<string>,
    city: Option<string>,
    areaSqFt: Option<int>,
    bedrooms: Option<int>,
    bathrooms: Option<int>,
    amenities: Option<seq<string>>,
    furnished: Option<bool>,
    availableFrom: Option<nat>,
    listedBy: Option<string>,
    tags: Option<seq<string>>,
    colorTheme: Option<string>,
    rating: Option<int>,
    isVerified: Option<bool>,
    listingType: Option<string>,
    createdBy: Option<UserId>)

  /** Mongoose's `required` check on a String path: present and not
      the empty string. */
  predicate RequiredText(o: Option<string>) {
    o.Some? && o.value != ""
  }

  /** Every field the schema marks `required` (other than `createdBy`,
      which the controller supplies) passes the `required` check: the
      String fields are present and non-empty, the others present. */
  predicate HasRequired(b: PropertyBody) {
    && RequiredText(b.id) && RequiredText(b.title) && RequiredText(b.kind) && b.price.Some?
    && RequiredText(b.state) && RequiredText(b.city) && b.areaSqFt.Some? && b.bedrooms.Some?
    && b.bathrooms.Some? && b.availableFrom.Some? && RequiredText(b.listedBy)
    && RequiredText(b.listingType)
  }

  /** The document `Property.create({...body, createdBy: owner})` stores:
      the owner always comes from the requester, and the schema defaults
      fill the omitted optional fields. */
  function NewProperty(b: PropertyBody, oid: ObjectId, owner: UserId, now: nat): (p: Property)
    requires HasRequired(b)
    ensures p.createdBy == owner && p.oid == oid && p.id == b.id.value
    ensures p.id != "" && p.title != "" && p.kind != "" && p.state != "" && p.city != ""
    ensures p.listedBy != "" && p.listingType != ""
    ensures p.createdAt == now && p.updatedAt == now
    ensures b.amenities.None? ==> p.amenities == []
    ensures b.tags.None? ==> p.tags == []
    ensures b.furnished.None? ==> !p.furnished
    ensures b.isVerified.None? ==> !p.isVerified
    ensures b.colorTheme.None? ==> p.colorTheme == ""
    ensures b.rating.None? ==> p.rating == 0
  {
    Property(
      oid, b.id.value, b.title.value, b.kind.value, b.price.value,
      b.state.value, b.city.value, b.areaSqFt.value, b.bedrooms.value,
      b.bathrooms.value, b.amenities.GetOr([]), b.furnished.GetOr(false),
      b.availableFrom.value, b.listedBy.value, b.tags.GetOr([]),
      b.colorTheme.GetOr(""), b.rating.GetOr(0), b.isVerified.GetOr(false),
      b.listingType.value, owner, now, now)
  }

  /** An update body: any subset of the schema's fields, passed straight
      to `findByIdAndUpdate`. It can even move `createdBy` or `id`; `_id`
      and `createdAt` are immutable. */
  datatype PropertyPatch = PropertyPatch(
    id: Option<string>,
    title: Option<string>,
    kind: Option<string>,
    price: Option<int>,
    state: Option<string>,
    city: Option<string>,
    areaSqFt: Option<int>,
    bedrooms: Option<int>,
    bathrooms: Option<int>,
    amenities: Option<seq<string>>,
    furnished: Option<bool>,
    availableFrom: Option<nat>,
    listedBy: Option<string>,
    tags: Option<seq<string>>,
    colorTheme: Option<string>,
    rating: Option<int>,
    isVerified: Option<bool>,
    listingType: Option<string>,
    createdBy: Option<UserId>)

  /** `p` with every field the patch names overwritten, and `updatedAt`
      set to `now`. */
  function ApplyPatch(p: Property, u: PropertyPatch, now: nat): (q: Property)
    ensures q.oid == p.oid && q.createdAt == p.createdAt && q.updatedAt == now
    ensures q.id == u.id.GetOr(p.id) && q.createdBy == u.createdBy.GetOr(p.createdBy)
  {
    p.(
      id := u.id.GetOr(p.id),
      title := u.title.GetOr(p.title),
      kind := u.kind.GetOr(p.kind),
      price := u.price.GetOr(p.price),
      state := u.state.GetOr(p.state),
      city := u.city.GetOr(p.city),
      areaSqFt := u.areaSqFt.GetOr(p.areaSqFt),
      bedrooms := u.bedrooms.GetOr(p.bedrooms),
      bathrooms := u.bathrooms.GetOr(p.bathrooms),
      amenities := u.amenities.GetOr(p.amenities),
      furnished := u.furnished.GetOr(p.furnished),
      availableFrom := u.availableFrom.GetOr(p.availableFrom),
      listedBy := u.listedBy.GetOr(p.listedBy),
      tags := u.tags.GetOr(p.tags),
      colorTheme := u.colorTheme.GetOr(p.colorTheme),
      rating := u.rating.GetOr(p.rating),
      isVerified := u.isVerified.GetOr(p.isVerified),
      listingType := u.listingType.GetOr(p.listingType),
      createdBy := u.createdBy.GetOr(p.createdBy),
      updatedAt := now)
  }

  /** An empty patch changes nothing but the update timestamp. */
  lemma EmptyPatchKeepsFields(p: Property, now: nat)
    ensures ApplyPatch(p, PropertyPatch(None, None, None, None, None, None, None, None, None,
                                        None, None, None, None, None, None, None, None, None, None), now)
            == p.(updatedAt := now)
  {
  }

  /** No two documents share an `_id`. */
  predicate UniqueOids(s: seq<Property>) {
    forall i, j :: 0 <= i < j < |s| ==> s[i].oid != s[j].oid
  }

  /** No two documents share the custom `id` (the schema's unique index). */
  predicate UniqueIds(s: seq<Property>) {
    forall i, j :: 0 <= i < j < |s| ==> s[i].id != s[j].id
  }

  /** `Property.findById(oid)`: the position of the document with that
      `_id`, or nothing. */
  function IndexOfOid(s: seq<Property>, oid: ObjectId): (r: Option<nat>)
    ensures r.Some? ==> r.value < |s| && s[r.value].oid == oid
    ensures r.None? ==> forall i :: 0 <= i < |s| ==> s[i].oid != oid
  {
    if s == [] then None
    else if s[0].oid == oid then Some(0)
    else match IndexOfOid(s[1..], oid)
      case None => None
      case Some(k) => Some(k + 1)
  }

  /** `Property.findOne({ id })`: the first document whose custom id is
      `id`, or nothing. */
  function FindByCustomId(s: seq<Property>, id: string): (r: Option<Property>)
    ensures r.Some? ==> r.value in s && r.value.id == id
    ensures r.None? ==> forall p :: p in s ==> p.id != id
  {
    if s == [] then None
    else if s[0].id == id then Some(s[0])
    else FindByCustomId(s[1..], id)
  }

  /** Is there a document with that `_id`? */
  predicate HasOid(s: seq<Property>, oid: ObjectId) {
    exists p :: p in s && p.oid == oid
  }

  /** Under the unique index the custom-id lookup is exact: it finds a
      document precisely when that document is stored. */
  lemma {:induction false} FindByCustomIdExact(s: seq<Property>, p: Property)
    requires UniqueIds(s)
    ensures FindByCustomId(s, p.id) == Some(p) <==> p in s
  {
    if s != [] && s[0].id != p.id {
      assert UniqueIds(s[1..]) by {
        assert forall i, j :: 0 <= i < j < |s[1..]| ==> s[1..][i] == s[i + 1] && s[1..][j] == s[j + 1];
      }
      FindByCustomIdExact(s[1..], p);
      assert p in s <==> p in s[1..] by {
        assert s == [s[0]] + s[1..];
      }
    }
  }
}
