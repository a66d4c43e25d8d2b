/** The newsletter endpoints of the Express backend: each email has one subscription record
    carrying a `subscribed` flag, which subscribe and unsubscribe create or flip. */
module Newsletter {
  import opened Wrappers

  const ValidationFailed := "Validation failed"
  const AlreadySubscribed := "Email already subscribed"
  const EmailNotFound := "Email not found"
  const Subscribed := "Successfully subscribed to newsletter"
  const Resubscribed := "Successfully re-subscribed to newsletter"
  const Unsubscribed := "Successfully unsubscribed from newsletter"

  /** A subscription document. */
  datatype Subscription = Subscription(email: string, subscribed: bool)

  /** The HTTP status and message an endpoint answers with. */
  datatype Reply = Reply(status: nat, message: string)

  /** At most one record per email. */
  predicate UniqueEmails(records: seq<Subscription>)
  {
    forall i, j :: 0 <= i < j < |records| ==> records[i].email != records[j].email
  }

  /** `findOne({ email })`: the position of the first record with that email. */
  function Find(records: seq<Subscription>, email: string): (r: Option<nat>)
    ensures r.None? <==> forall s :: s in records ==> s.email != email
    ensures r.Some? ==> r.value < |records| && records[r.value].email == email
    ensures r.Some? && UniqueEmails(records) ==>
      forall i :: 0 <= i < |records| && records[i].email == email ==> i == r.value
  {
    if records == [] then None
    else if records[0].email == email then Some(0)
    else
      var r := Find(records[1..], email);
      assert forall s :: s in records[1..] ==> s in records;
      if r.Some? then Some(r.value + 1) else None
  }

  /** Whether the email is subscribed, or None when it has no record. */
  function StatusOf(records: seq<Subscription>, email: string): Option<bool>
  {
    match Find(records, email)
    case None => None
    case Some(i) => Some(records[i].subscribed)
  }

  /** The records after the email's record has its flag set (`existing.subscribed = flag;
      existing.save()`); no record changes when the email has none. */
  function SetFlag(records: seq<Subscription>, email: string, flag: bool): (r: seq<Subscription>)
    ensures |r| == |records|
    ensures forall i :: 0 <= i < |r| ==> r[i].email == records[i].email
    ensures Find(records, email).Some? ==> StatusOf(r, email) == Some(flag)
    ensures Find(records, email).None? ==> r == records
    ensures forall e :: e != email ==> StatusOf(r, e) == StatusOf(records, e)
  {
    match Find(records, email)
    case None => records
    case Some(i) =>
      var r := records[i := records[i].(subscribed := flag)];
      FindSameEmails(records, r, email);
      forall e | e != email ensures StatusOf(r, e) == StatusOf(records, e) {
        FindSameEmails(records, r, e);
      }
      r
  }

  /** Two record lists with the same emails position by position answer findOne alike. */
  lemma {:induction false} FindSameEmails(a: seq<Subscription>, b: seq<Subscription>, email: string)
    requires |a| == |b| && forall i :: 0 <= i < |a| ==> a[i].email == b[i].email
    ensures Find(a, email) == Find(b, email)
  {
    if a != [] && a[0].email != email {
      FindSameEmails(a[1..], b[1..], email);
    }
  }

  /** Setting the same flag twice is the same as setting it once. */
  lemma SetFlagIdempotent(records: seq<Subscription>, email: string, flag: bool)
    ensures SetFlag(SetFlag(records, email, flag), email, flag) == SetFlag(records, email, flag)
  {
    var once := SetFlag(records, email, flag);
    FindSameEmails(records, once, email);
  }

  /** Unsubscribing twice leaves the store as unsubscribing once: the second call finds the
      record and sets the flag it already has. */
  lemma UnsubscribeIdempotent(records: seq<Subscription>, email: string)
    requires Find(records, email).Some?
    ensures Find(SetFlag(records, email, false), email).Some?
    ensures SetFlag(SetFlag(records, email, false), email, false) == SetFlag(records, email, false)
  {
    FindSameEmails(records, SetFlag(records, email, false), email);
    SetFlagIdempotent(records, email, false);
  }

  /** The newsletter collection. */
  class NewsletterStore {
    var records: seq<Subscription>

    ghost predicate Valid()
      reads this
    {
      UniqueEmails(records)
    }

    constructor()
      ensures Valid() && records == []
    {
      records := [];
    }

    /** subscribe: a request that failed validation is refused before any lookup; a subscribed
        email is refused; an unsubscribed one is re-subscribed in place; a new one gets a
        record with `subscribed` set. */
    method Subscribe(validationPassed: bool, email: string) returns (reply: Reply)
      requires Valid()
      modifies this
      ensures Valid()
      ensures !validationPassed ==> reply == Reply(400, ValidationFailed) && records == old(records)
      ensures validationPassed && StatusOf(old(records), email) == Some(true) ==>
        reply == Reply(400, AlreadySubscribed) && records == old(records)
      ensures validationPassed && StatusOf(old(records), email) == Some(false) ==>
        reply == Reply(200, Resubscribed) && records == SetFlag(old(records), email, true)
      ensures validationPassed && StatusOf(old(records), email).None? ==>
        reply == Reply(201, Subscribed) && records == old(records) + [Subscription(email, true)]
      ensures validationPassed ==> StatusOf(records, email) == Some(true)
      ensures forall e :: e != email ==> StatusOf(records, e) == StatusOf(old(records), e)
    {
      if !validationPassed {
        return Reply(400, ValidationFailed);
      }
      var existing := Find(records, email);
      if existing.Some? {
        if records[existing.value].subscribed {
          return Reply(400, AlreadySubscribed);
        }
        records := SetFlag(records, email, true);
        return Reply(200, Resubscribed);
      }
      AppendNewEmail(records, email);
      records := records + [Subscription(email, true)];
      return Reply(201, Subscribed);
    }

    /** unsubscribe: an unknown email is answered 404; a known one has its flag cleared,
        whatever it was. */
    method Unsubscribe(email: string) returns (reply: Reply)
      requires Valid()
      modifies this
      ensures Valid()
      ensures StatusOf(old(records), email).None? ==> reply == Reply(404, EmailNotFound) && records == old(records)
      ensures StatusOf(old(records), email).Some? ==>
        reply == Reply(200, Unsubscribed) && records == SetFlag(old(records), email, false)
        && StatusOf(records, email) == Some(false)
    {
      var subscription := Find(records, email);
      if subscription.None? {
        return Reply(404, EmailNotFound);
      }
      records := SetFlag(records, email, false);
      return Reply(200, Unsubscribed);
    }
  }

  /** Appending a record for an email that has none keeps emails unique, makes the email
      subscribed, and leaves every other email's status alone. */
  lemma AppendNewEmail(records: seq<Subscription>, email: string)
    requires UniqueEmails(records) && Find(records, email).None?
    ensures UniqueEmails(records + [Subscription(email, true)])
    ensures StatusOf(records + [Subscription(email, true)], email) == Some(true)
    ensures forall e :: e != email ==> StatusOf(records + [Subscription(email, true)], e) == StatusOf(records, e)
  {
    var r := records + [Subscription(email, true)];
    assert forall i :: 0 <= i < |records| ==> records[i] in records;
    forall e ensures StatusOf(r, e) == if e == email then Some(true) else StatusOf(records, e) {
      FindAppend(records, Subscription(email, true), e);
    }
  }

  lemma {:induction false} FindAppend(records: seq<Subscription>, s: Subscription, email: string)
    ensures Find(records + [s], email) ==
      if Find(records, email).Some? then Find(records, email)
      else if s.email == email then Some(|records|)
      else None
  {
    if records != [] {
      assert (records + [s])[1..] == records[1..] + [s];
      FindAppend(records[1..], s, email);
    }
  }
}
