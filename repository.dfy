/** The message and contact tables, and the queries the repositories derive
    from their method names. */
module Repository {
  import opened Nullable
  import opened Entities

  /** The contents of both tables at one moment. */
  datatype Tables = Tables(messages: seq<Message>, contacts: map<string, Contact>)

  /** The contact map is keyed by the contact's own phone, so at most one
      contact exists per phone. */
  ghost predicate PhoneKeyed(contacts: map<string, Contact>) {
    forall p :: p in contacts ==> contacts[p].phone == p
  }

  // ---- ordering by timestamp, newest first ----

  /** `a` sorts no later than `b` when listing newest first; a missing
      timestamp sorts last. */
  predicate AtLeast(a: Option<int>, b: Option<int>) {
    b.None? || (a.Some? && a.value >= b.value)
  }

  ghost predicate NewestFirst(s: seq<Message>) {
    forall i, j :: 0 <= i < j < |s| ==> AtLeast(s[i].timestamp, s[j].timestamp)
  }

  /** The messages of `s` whose timestamp is `k`, in the order of `s`. */
  function WithTimestamp(s: seq<Message>, k: Option<int>): seq<Message> {
    if s == [] then []
    else (if s[0].timestamp == k then [s[0]] else []) + WithTimestamp(s[1..], k)
  }

  /** Puts `x` in front of the first element that is not strictly newer. */
  function InsertNewest(x: Message, t: seq<Message>): seq<Message> {
    if t == [] || AtLeast(x.timestamp, t[0].timestamp) then [x] + t
    else [t[0]] + InsertNewest(x, t[1..])
  }

  lemma {:induction false} InsertNewestPermutes(x: Message, t: seq<Message>)
    ensures multiset(InsertNewest(x, t)) == multiset([x]) + multiset(t)
    decreases |t|
  {
    if t == [] || AtLeast(x.timestamp, t[0].timestamp) {
    } else {
      InsertNewestPermutes(x, t[1..]);
      assert t == [t[0]] + t[1..];
    }
  }

  lemma {:induction false} InsertNewestStable(x: Message, t: seq<Message>, k: Option<int>)
    ensures WithTimestamp(InsertNewest(x, t), k) == (if x.timestamp == k then [x] else []) + WithTimestamp(t, k)
    decreases |t|
  {
    if t == [] || AtLeast(x.timestamp, t[0].timestamp) {
      assert ([x] + t)[1..] == t;
    } else {
      InsertNewestStable(x, t[1..], k);
      var r := InsertNewest(x, t[1..]);
      assert ([t[0]] + r)[1..] == r;
    }
  }

  lemma {:induction false} InsertNewestSorted(x: Message, t: seq<Message>)
    requires NewestFirst(t)
    ensures NewestFirst(InsertNewest(x, t))
  {
    if t == [] || AtLeast(x.timestamp, t[0].timestamp) {
    } else {
      var r := InsertNewest(x, t[1..]);
      InsertNewestSorted(x, t[1..]);
      InsertNewestPermutes(x, t[1..]);
      forall j | 0 <= j < |r| ensures AtLeast(t[0].timestamp, r[j].timestamp) {
        assert r[j] in multiset(r);
        assert r[j] == x || r[j] in multiset(t[1..]);
        if r[j] != x {
          assert r[j] in t[1..];
        }
      }
    }
  }

  /** A stable sort, newest first: the order `Stream.sorted` gives with a
      comparator on timestamps, descending. */
  function SortNewestFirst(s: seq<Message>): (r: seq<Message>)
    ensures NewestFirst(r)
    ensures multiset(r) == multiset(s)
    ensures forall k :: WithTimestamp(r, k) == WithTimestamp(s, k)
  {
    if s == [] then []
    else
      var rest := SortNewestFirst(s[1..]);
      InsertNewestPermutes(s[0], rest);
      InsertNewestSorted(s[0], rest);
      forall k ensures WithTimestamp(InsertNewest(s[0], rest), k) == WithTimestamp(s, k) {
        InsertNewestStable(s[0], rest, k);
      }
      assert s == [s[0]] + s[1..];
      InsertNewest(s[0], rest)
  }

  /** The messages of `s` stored for `phone`, in the order of `s`. */
  function ForPhone(s: seq<Message>, phone: string): (r: seq<Message>)
    ensures forall m :: multiset(r)[m] == if m.contactPhone == Some(phone) then multiset(s)[m] else 0
  {
    if s == [] then []
    else
      assert s == [s[0]] + s[1..];
      (if s[0].contactPhone == Some(phone) then [s[0]] else []) + ForPhone(s[1..], phone)
  }

  // ---- the tables as mutable state ----

  /** Both repositories: the message table in insertion order, the contact
      table keyed by phone. */
  class Store {
    var messages: seq<Message>
    var contacts: map<string, Contact>

    ghost predicate Valid()
      reads this
    {
      PhoneKeyed(contacts)
    }

    function Snapshot(): Tables
      reads this
    {
      Tables(messages, contacts)
    }

    constructor ()
      ensures Valid()
      ensures Snapshot() == Tables([], map[])
    {
      messages := [];
      contacts := map[];
    }

    /** `ContactRepository.findByPhone`: the one contact with this phone,
        or null. */
    function FindByPhone(phone: string): (r: Option<Contact>)
      requires Valid()
      reads this
      ensures r.Some? <==> phone in contacts
      ensures r.Some? ==> r.value == contacts[phone] && r.value.phone == phone
    {
      if phone in contacts then Some(contacts[phone]) else None
    }

    /** `ContactRepository.save`: inserts a new contact or updates the
        one with the same phone. */
    method SaveContact(c: Contact)
      requires Valid()
      modifies this
      ensures Valid()
      ensures contacts == old(contacts)[c.phone := c]
      ensures messages == old(messages)
    {
      contacts := contacts[c.phone := c];
    }

    /** `MessageRepository.save` of a new message: appends one row. */
    method SaveMessage(m: Message)
      requires Valid()
      modifies this
      ensures Valid()
      ensures messages == old(messages) + [m]
      ensures contacts == old(contacts)
    {
      messages := messages + [m];
    }

    /** `MessageRepository.findByContactPhoneOrderByTimestampDesc`: exactly
        the messages of that phone, newest first; messages with equal
        timestamps keep table order. */
    function FindByContactPhoneOrderByTimestampDesc(phone: string): (r: seq<Message>)
      reads this
      ensures NewestFirst(r)
      ensures forall m :: multiset(r)[m] == if m.contactPhone == Some(phone) then multiset(messages)[m] else 0
      ensures forall k :: WithTimestamp(r, k) == WithTimestamp(ForPhone(messages, phone), k)
    {
      SortNewestFirst(ForPhone(messages, phone))
    }
  }
}
