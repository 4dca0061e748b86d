/** Recommendations of src/controllers/recommendationController.ts: one
    user points another (named by e-mail) at a property. Creation checks
    the recipient, then the property (by `_id`), then appends a record;
    nothing stops the same recommendation being made twice. Listing
    returns what the requester received, newest first. */
module Recommendations {
  import opened Common
  import opened Ordering
  import opened PropertyModel

  /** The part of a `User` document the controller reads. */
  datatype User = User(oid: UserId, email: string)

  /** A `Recommendation` document (src/models/Recommendation.ts). */
  datatype Recommendation = Recommendation(
    oid: ObjectId,
    from: UserId,
    to: UserId,
    property: ObjectId,
    message: string,
    isRead: bool,
    createdAt: nat)

  function RecommendedAt(r: Recommendation): int {
    r.createdAt
  }

  /** `User.findOne({ email })`: the first user with that address. */
  function FindUserByEmail(users: seq<User>, email: string): (r: Option<User>)
    ensures r.Some? ==> r.value in users && r.value.email == email
    ensures r.None? ==> forall u :: u in users ==> u.email != email
  {
    if users == [] then None
    else if users[0].email == email then Some(users[0])
    else FindUserByEmail(users[1..], email)
  }

  /** `Recommendation.find({ to })` before sorting, in stored order. */
  function ForRecipient(s: seq<Recommendation>, to: UserId): (r: seq<Recommendation>)
    ensures forall x :: x in r <==> x in s && x.to == to
    ensures multiset(r) <= multiset(s)
  {
    if s == [] then []
    else
      var rest := ForRecipient(s[1..], to);
      assert s == [s[0]] + s[1..];
      assert forall x :: x in s <==> x == s[0] || x in s[1..];
      if s[0].to == to then [s[0]] + rest else rest
  }

  /** `getRecommendations`: the records sent to `to`, newest first. */
  function Received(s: seq<Recommendation>, to: UserId): (r: seq<Recommendation>)
    ensures NewestFirst(r, RecommendedAt)
    ensures multiset(r) == multiset(ForRecipient(s, to))
  {
    SortNewestFirst(ForRecipient(s, to), RecommendedAt)
  }

  /** The list holds every record addressed to the requester and no
      other. */
  lemma ReceivedExactly(s: seq<Recommendation>, to: UserId, x: Recommendation)
    ensures x in Received(s, to) <==> x in s && x.to == to
  {
    var r := Received(s, to);
    assert x in r <==> x in multiset(r);
    assert x in ForRecipient(s, to) <==> x in multiset(ForRecipient(s, to));
  }

  /** A record appended for someone else leaves the requester's list as it
      was. */
  lemma {:induction false} ForRecipientAppendOther(s: seq<Recommendation>, x: Recommendation, to: UserId)
    requires x.to != to
    ensures ForRecipient(s + [x], to) == ForRecipient(s, to)
  {
    if s != [] {
      assert (s + [x])[1..] == s[1..] + [x];
      ForRecipientAppendOther(s[1..], x, to);
    } else {
      assert ForRecipient([x], to) == ForRecipient([x][1..], to);
    }
  }

  datatype CreateOutcome = RecipientMissing | PropertyMissing | Recommended(record: Recommendation) {
    function Status(): Status {
      match this
      case RecipientMissing => NotFound
      case PropertyMissing => NotFound
      case Recommended(_) => Created
    }
  }

  class RecommendationLog {
    /** The stored records, oldest insert first. */
    var records: seq<Recommendation>
    /** Every `_id` handed out so far is below this. */
    var nextOid: ObjectId

    ghost predicate Valid()
      reads this
    {
      forall i :: 0 <= i < |records| ==> records[i].oid < nextOid
    }

    constructor ()
      ensures Valid() && records == [] && nextOid == 0
    {
      records := [];
      nextOid := 0;
    }

    /** `createRecommendation`: 404 when no user has `toEmail` (checked
        first), 404 when no property has `_id` `propertyId`, otherwise one
        record from the requester to the recipient, with the message
        defaulting to the empty string and `isRead` to false. */
    method Create(requester: UserId, toEmail: string, propertyId: ObjectId, message: Option<string>,
                  users: seq<User>, properties: seq<Property>, now: nat)
      returns (outcome: CreateOutcome)
      requires Valid()
      modifies this
      ensures Valid()
      ensures outcome.RecipientMissing? <==> FindUserByEmail(users, toEmail).None?
      ensures outcome.PropertyMissing? <==>
                FindUserByEmail(users, toEmail).Some? && IndexOfOid(properties, propertyId).None?
      ensures !outcome.Recommended? ==> records == old(records) && nextOid == old(nextOid)
      ensures outcome.Recommended? ==>
                && outcome.record == Recommendation(old(nextOid), requester, FindUserByEmail(users, toEmail).value.oid,
                                                    propertyId, message.GetOr(""), false, now)
                && records == old(records) + [outcome.record]
                && nextOid == old(nextOid) + 1
    {
      var recipient := FindUserByEmail(users, toEmail);
      if recipient.None? {
        return RecipientMissing;
      }
      if IndexOfOid(properties, propertyId).None? {
        return PropertyMissing;
      }
      var r := Recommendation(nextOid, requester, recipient.value.oid, propertyId, message.GetOr(""), false, now);
      records := records + [r];
      nextOid := nextOid + 1;
      return Recommended(r);
    }
  }

  /** No uniqueness check: making the same recommendation twice, at the
      same logical time, stores two records that differ only in `_id`. */
  method RecommendTwice(log: RecommendationLog, requester: UserId, toEmail: string, propertyId: ObjectId,
                        message: Option<string>, users: seq<User>, properties: seq<Property>, now: nat)
    returns (first: CreateOutcome, second: CreateOutcome)
    requires log.Valid()
    modifies log
    ensures log.Valid()
    ensures first.Recommended? <==> second.Recommended?
    ensures first.Recommended? ==>
              && |log.records| == |old(log.records)| + 2
              && first.record.oid != second.record.oid
              && first.record.(oid := 0) == second.record.(oid := 0)
  {
    first := log.Create(requester, toEmail, propertyId, message, users, properties, now);
    second := log.Create(requester, toEmail, propertyId, message, users, properties, now);
  }
}
