/** `MessageService`: ingestion of one inbound webhook message into the two
    tables, and the date-range query. */
module Service {
  import opened Nullable
  import opened JavaLong
  import opened WebhookRequest
  import opened Entities
  import opened Repository

  // ---- the steps of processIncomingMessage, as values ----

  /** What the duplicate search over all stored messages finds. `Threw` is
      the NullPointerException of `messageId.equals(...)` on a null id,
      which happens only once the filter meets its first stored message. */
  datatype Lookup = Threw | Found(index: nat) | NotFound

  function DuplicateLookup(messages: seq<Message>, id: Option<string>): (r: Lookup)
    ensures r.Threw? <==> id.None? && |messages| > 0
    ensures r.Found? ==>
      && r.index < |messages|
      && messages[r.index].whatsappMessageId == id
      && forall j :: 0 <= j < r.index ==> messages[j].whatsappMessageId != id
    ensures r.NotFound? ==> forall j :: 0 <= j < |messages| ==> messages[j].whatsappMessageId != id
  {
    if messages == [] then NotFound
    else if id.None? then Threw
    else if messages[0].whatsappMessageId == id then Found(0)
    else
      var rest := DuplicateLookup(messages[1..], id);
      if rest.Found? then Found(rest.index + 1) else rest
  }

  /** The body text stored for a message: text, then image, then document,
      else empty. A null text body stays null; a null file name is rendered
      by string concatenation as "null". */
  function BodyOf(m: MessageData): (r: Option<string>)
    ensures m.text.Some? ==> r == m.text.value.body
    ensures m.text.None? ==> r.Some?
    ensures m.text.None? && m.image.Some? ==> "[Image]" <= r.value
    ensures m.text.None? && m.image.None? && m.document.Some? ==> "[Document: " <= r.value
    ensures m.text.None? && m.image.None? && m.document.None? ==> r == Some("")
  {
    if m.text.Some? then m.text.value.body
    else if m.image.Some? then
      Some(if m.image.value.caption.Some? then "[Image] " + m.image.value.caption.value else "[Image]")
    else if m.document.Some? then
      var doc := m.document.value;
      Some(if doc.caption.Some?
           then "[Document: " + Render(doc.filename) + "] " + doc.caption.value
           else "[Document: " + Render(doc.filename) + "]")
    else Some("")
  }

  /** The profile name of the contact data, when the contact data and its
      profile are both present. */
  function IncomingName(c: Option<ContactData>): Option<string> {
    if c.Some? && c.value.profile.Some? then c.value.profile.value.name else None
  }

  /** Whether an existing contact is renamed: a non-null incoming name that
      differs from the stored one (a null stored name always differs). */
  predicate Renames(existing: Contact, c: Option<ContactData>) {
    IncomingName(c).Some? && IncomingName(c) != existing.name
  }

  /** The contact table after the create-or-rename step. */
  function UpsertContact(contacts: map<string, Contact>, phone: string, c: Option<ContactData>, now: int)
    : (r: map<string, Contact>)
    ensures r.Keys == contacts.Keys + {phone}
    ensures forall p :: p in contacts && p != phone ==> r[p] == contacts[p]
    ensures phone !in contacts ==> r[phone] == Contact(phone, IncomingName(c), now)
    ensures phone in contacts ==>
      && r[phone].phone == contacts[phone].phone
      && r[phone].createdAt == contacts[phone].createdAt
      && (r[phone].name == contacts[phone].name || r[phone].name == IncomingName(c))
    ensures PhoneKeyed(contacts) ==> PhoneKeyed(r)
  {
    if phone !in contacts then contacts[phone := Contact(phone, IncomingName(c), now)]
    else if Renames(contacts[phone], c) then contacts[phone := contacts[phone].(name := IncomingName(c))]
    else contacts
  }

  /** The message row appended for an accepted inbound message. */
  function Inbound(m: MessageData, phone: string, seconds: int, now: int): (r: Message)
    ensures r.whatsappMessageId == m.id && r.contactPhone == Some(phone) && !r.fromMe && r.createdAt == now
    ensures r.timestamp.Some? && InRange(r.timestamp.value)
    ensures (r.timestamp.value - seconds * 1000) % MODULUS == 0
    ensures InRange(seconds * 1000) ==> r.timestamp == Some(seconds * 1000)
  {
    Message(m.id, Some(phone), BodyOf(m), false, Some(MulLong(seconds, 1000)), now)
  }

  /** Why a call ended early with its exception swallowed. */
  datatype Fault =
    | NullMessage     // getFrom() on a null message
    | NullIdLookup    // messageId.equals(...) on a null id
    | BadTimestamp    // Long.parseLong on the timestamp

  /** `RolledBack`: the insert of a contact whose NOT NULL phone is null
      fails inside the repository, which marks the service's transaction
      rollback-only. The service swallows that exception, but its commit
      then throws an UnexpectedRollbackException to the caller, and nothing
      of the call is kept. */
  datatype Outcome = Duplicate | Stored | Swallowed(fault: Fault) | RolledBack

  datatype Step = Step(tables: Tables, outcome: Outcome)

  /** One call of processIncomingMessage on the tables `t`, at clock `now`. */
  function Ingest(t: Tables, message: Option<MessageData>, contact: Option<ContactData>, now: int): (r: Step)
    ensures r.outcome == Stored <==>
      && message.Some? && DuplicateLookup(t.messages, message.value.id).NotFound?
      && message.value.from.Some? && ParseLong(message.value.timestamp).Some?
    ensures r.outcome == RolledBack <==>
      message.Some? && DuplicateLookup(t.messages, message.value.id).NotFound? && message.value.from.None?
    ensures r.outcome != Stored && r.outcome != Swallowed(BadTimestamp) ==> r.tables == t
  {
    match message
    case None => Step(t, Swallowed(NullMessage))
    case Some(m) =>
      match DuplicateLookup(t.messages, m.id)
      case Threw => Step(t, Swallowed(NullIdLookup))
      case Found(_) => Step(t, Duplicate)
      case NotFound =>
        match m.from
        case None => Step(t, RolledBack)
        case Some(phone) =>
          var contacts := UpsertContact(t.contacts, phone, contact, now);
          match ParseLong(m.timestamp)
          case None => Step(Tables(t.messages, contacts), Swallowed(BadTimestamp))
          case Some(seconds) => Step(Tables(t.messages + [Inbound(m, phone, seconds, now)], contacts), Stored)
  }

  /** One processIncomingMessage call a webhook delivery makes. */
  datatype Call = Call(message: Option<MessageData>, contact: Option<ContactData>)

  /** The tables after a sequence of calls, and whether an exception
      escaped one of them; an escaping exception ends the sequence. */
  datatype Run = Run(tables: Tables, escaped: bool)

  /** The calls made in order, stopping after the first that rolls back. */
  function IngestAll(t: Tables, calls: seq<Call>, now: int): (r: Run)
    ensures |r.tables.messages| <= |t.messages| + |calls|
    ensures r.escaped ==> |calls| > 0
    decreases |calls|
  {
    if calls == [] then Run(t, false)
    else
      var step := Ingest(t, calls[0].message, calls[0].contact, now);
      if step.outcome == RolledBack then Run(step.tables, true)
      else IngestAll(step.tables, calls[1..], now)
  }

  /** A single call, as a run. */
  lemma IngestOne(t: Tables, c: Call, now: int)
    ensures var step := Ingest(t, c.message, c.contact, now);
      IngestAll(t, [c], now) == Run(step.tables, step.outcome == RolledBack)
  {
    assert [c][0] == c && [c][1..] == [];
  }

  /** `more` after `r`, unless an exception already escaped. */
  function Continue(r: Run, more: seq<Call>, now: int): Run {
    if r.escaped then r else IngestAll(r.tables, more, now)
  }

  // ---- properties of one call ----

  /** A stored message with the incoming id: nothing changes. */
  lemma DuplicateLeavesTablesUnchanged(t: Tables, m: MessageData, c: Option<ContactData>, now: int)
    requires m.id.Some?
    requires exists i :: 0 <= i < |t.messages| && t.messages[i].whatsappMessageId == m.id
    ensures Ingest(t, Some(m), c, now) == Step(t, Duplicate)
  {
  }

  /** A null id meeting a non-empty table, or a null message: the exception
      is swallowed and nothing changes. */
  lemma NullLookupLeavesTablesUnchanged(t: Tables, message: Option<MessageData>, c: Option<ContactData>, now: int)
    requires message.None? || (message.value.id.None? && |t.messages| > 0)
    ensures Ingest(t, message, c, now).tables == t
    ensures Ingest(t, message, c, now).outcome.Swallowed?
  {
  }

  /** A new id (or a null one on an empty table), a sender and a parseable
      timestamp: exactly one message is
      appended, carrying the id, the sender, the body, the provider time in
      milliseconds and the local time. */
  lemma AppendOnSuccess(t: Tables, m: MessageData, c: Option<ContactData>, now: int)
    requires DuplicateLookup(t.messages, m.id).NotFound?
    requires m.from.Some? && ParseLong(m.timestamp).Some?
    ensures var r := Ingest(t, Some(m), c, now);
      && r.outcome == Stored
      && |r.tables.messages| == |t.messages| + 1
      && r.tables.messages[..|t.messages|] == t.messages
      && r.tables.messages[|t.messages|]
         == Message(m.id, m.from, BodyOf(m), false, Some(MulLong(ParseLong(m.timestamp).value, 1000)), now)
  {
    var r := Ingest(t, Some(m), c, now);
    assert r.tables.messages[..|t.messages|] == t.messages;
  }

  /** Messages are only ever appended, and one per call at most. */
  lemma MessagesOnlyGrow(t: Tables, message: Option<MessageData>, c: Option<ContactData>, now: int)
    ensures var r := Ingest(t, message, c, now);
      && (r.outcome == Stored <==> |r.tables.messages| == |t.messages| + 1)
      && (r.outcome != Stored <==> r.tables.messages == t.messages)
      && r.tables.messages[..|t.messages|] == t.messages
  {
    var r := Ingest(t, message, c, now);
    assert r.tables.messages[..|t.messages|] == t.messages;
  }

  /** First message from a phone: a contact is created with that phone, the
      local time and the profile name (null without contact data or
      profile), whether or not the timestamp then parses. */
  lemma NewContactCreated(t: Tables, m: MessageData, c: Option<ContactData>, now: int)
    requires DuplicateLookup(t.messages, m.id).NotFound?
    requires m.from.Some? && m.from.value !in t.contacts
    ensures var r := Ingest(t, Some(m), c, now).tables.contacts;
      && r.Keys == t.contacts.Keys + {m.from.value}
      && r[m.from.value] == Contact(m.from.value, IncomingName(c), now)
      && forall p :: p in t.contacts ==> r[p] == t.contacts[p]
  {
  }

  /** Known phone: only the name can change, and only to a non-null
      incoming name that differs; phone and creation time stay. */
  lemma ExistingContactRenamedOnly(t: Tables, m: MessageData, c: Option<ContactData>, now: int)
    requires DuplicateLookup(t.messages, m.id).NotFound?
    requires m.from.Some? && m.from.value in t.contacts
    ensures var r := Ingest(t, Some(m), c, now).tables.contacts;
      var old_ := t.contacts[m.from.value];
      && r.Keys == t.contacts.Keys
      && r[m.from.value].phone == old_.phone
      && r[m.from.value].createdAt == old_.createdAt
      && (r[m.from.value].name == old_.name || r[m.from.value].name == IncomingName(c))
      && (r[m.from.value] != old_ <==> IncomingName(c).Some? && IncomingName(c) != old_.name)
      && forall p :: p in t.contacts && p != m.from.value ==> r[p] == t.contacts[p]
  {
  }

  /** An unparseable timestamp is swallowed after the contact step: the
      contact created or renamed stays, no message is appended. */
  lemma BadTimestampKeepsContactChange(t: Tables, m: MessageData, c: Option<ContactData>, now: int)
    requires DuplicateLookup(t.messages, m.id).NotFound?
    requires m.from.Some? && ParseLong(m.timestamp).None?
    ensures Ingest(t, Some(m), c, now)
         == Step(Tables(t.messages, UpsertContact(t.contacts, m.from.value, c, now)), Swallowed(BadTimestamp))
  {
  }

  /** The body priority: text, then image, then document, else empty. */
  lemma BodyPriority(m: MessageData)
    ensures m.text.Some? ==> BodyOf(m) == m.text.value.body
    ensures m.text.None? && m.image.Some? ==>
      BodyOf(m) == Some(if m.image.value.caption.Some? then "[Image] " + m.image.value.caption.value else "[Image]")
    ensures m.text.None? && m.image.None? && m.document.Some? ==>
      var d := m.document.value;
      BodyOf(m) == Some(if d.caption.Some? then "[Document: " + Render(d.filename) + "] " + d.caption.value
                        else "[Document: " + Render(d.filename) + "]")
    ensures m.text.None? && m.image.None? && m.document.None? ==> BodyOf(m) == Some("")
  {
  }

  /** The message `type` field plays no part in ingestion. */
  lemma TypeFieldIgnored(t: Tables, m: MessageData, kind: Option<string>, c: Option<ContactData>, now: int)
    ensures Ingest(t, Some(m.(messageType := kind)), c, now) == Ingest(t, Some(m), c, now)
  {
  }

  /** Once a message with an id is stored, delivering it again, with any
      contact data and at any time, changes nothing. */
  lemma ReplayChangesNothing(t: Tables, m: MessageData, c: Option<ContactData>, c': Option<ContactData>, now: int, later: int)
    requires m.id.Some?
    requires Ingest(t, Some(m), c, now).outcome == Stored
    ensures var t' := Ingest(t, Some(m), c, now).tables;
      Ingest(t', Some(m), c', later) == Step(t', Duplicate)
  {
    var t' := Ingest(t, Some(m), c, now).tables;
    assert t'.messages[|t.messages|].whatsappMessageId == m.id;
  }

  // ---- properties of a sequence of calls ----

  /** Two call sequences in turn are their concatenation. */
  lemma {:induction false} IngestAllAppend(t: Tables, a: seq<Call>, b: seq<Call>, now: int)
    ensures IngestAll(t, a + b, now) == Continue(IngestAll(t, a, now), b, now)
    decreases |a|
  {
    if a == [] {
      assert a + b == b;
    } else {
      assert (a + b)[1..] == a[1..] + b;
      assert (a + b)[0] == a[0];
      var step := Ingest(t, a[0].message, a[0].contact, now);
      if step.outcome != RolledBack {
        IngestAllAppend(step.tables, a[1..], b, now);
      }
    }
  }

  predicate NullSender(c: Call) {
    c.message.Some? && c.message.value.from.None?
  }

  /** Only a message without a sender makes an exception escape. */
  lemma {:induction false} OnlyANullSenderEscapes(t: Tables, calls: seq<Call>, now: int)
    requires forall k :: 0 <= k < |calls| ==> !NullSender(calls[k])
    ensures !IngestAll(t, calls, now).escaped
    decreases |calls|
  {
    if calls != [] {
      assert !NullSender(calls[0]);
      var step := Ingest(t, calls[0].message, calls[0].contact, now);
      forall k | 0 <= k < |calls[1..]| ensures !NullSender(calls[1..][k]) {
        assert calls[1..][k] == calls[k + 1];
      }
      OnlyANullSenderEscapes(step.tables, calls[1..], now);
    }
  }

  /** Over any sequence of calls: at most one contact per phone, no contact
      disappears or changes phone or creation time, and the old messages
      stay a prefix of the table. */
  lemma {:induction false} IngestAllPreserves(t: Tables, calls: seq<Call>, now: int)
    requires PhoneKeyed(t.contacts)
    ensures var r := IngestAll(t, calls, now).tables;
      && PhoneKeyed(r.contacts)
      && t.contacts.Keys <= r.contacts.Keys
      && (forall p :: p in t.contacts ==> r.contacts[p].createdAt == t.contacts[p].createdAt)
      && |t.messages| <= |r.messages| && r.messages[..|t.messages|] == t.messages
    decreases |calls|
  {
    if calls != [] {
      var step := Ingest(t, calls[0].message, calls[0].contact, now);
      var s := step.tables;
      assert s.messages[..|t.messages|] == t.messages;
      if step.outcome != RolledBack {
        IngestAllPreserves(s, calls[1..], now);
        var r := IngestAll(s, calls[1..], now).tables;
        assert r.messages[..|t.messages|] == r.messages[..|s.messages|][..|t.messages|];
      }
    }
  }

  /** A first text "hi" from the unseen phone 15551234567, profile name Ana. */
  lemma FirstTextFromNewPhone(now: int)
    ensures var m := MessageData(Some("15551234567"), Some("wamid.1"), Some("1700000000"), Some("text"),
                                 Some(Text(Some("hi"))), None, None);
      var c := Some(ContactData(Some(Profile(Some("Ana"))), Some("15551234567")));
      Ingest(Tables([], map[]), Some(m), c, now)
      == Step(Tables([Message(Some("wamid.1"), Some("15551234567"), Some("hi"), false, Some(1700000000000), now)],
                     map["15551234567" := Contact("15551234567", Some("Ana"), now)]),
              Stored)
  {
    ScenarioTimestampParses();
  }

  lemma ScenarioTimestampParses()
    ensures ParseLong(Some("1700000000")) == Some(1700000000)
  {
    ScenarioLeadingDigits();
    assert "170000"[..5] == "17000";
    assert DigitsValue("170000") == 170000;
    assert "1700000"[..6] == "170000";
    assert DigitsValue("1700000") == 1700000;
    assert "17000000"[..7] == "1700000";
    assert DigitsValue("17000000") == 17000000;
    assert "170000000"[..8] == "17000000";
    assert DigitsValue("170000000") == 170000000;
    assert "1700000000"[..9] == "170000000";
    assert DigitsValue("1700000000") == 1700000000;
  }

  lemma ScenarioLeadingDigits()
    ensures DigitsValue("17000") == 17000
  {
    assert DigitsValue("1") == 1;
    assert "17"[..1] == "1";
    assert DigitsValue("17") == 17;
    assert "170"[..2] == "17";
    assert DigitsValue("170") == 170;
    assert "1700"[..3] == "170";
    assert DigitsValue("1700") == 1700;
    assert "17000"[..4] == "1700";
  }

  // ---- the service object ----

  class MessageService {
    const store: Store

    constructor (store: Store)
      ensures this.store == store
    {
      this.store := store;
    }

    /** processIncomingMessage: the tables end as `Ingest` says; every
        exception of the body is swallowed, and `rolledBack` is the
        exception the transaction's commit throws after a failed insert. */
    method ProcessIncomingMessage(messageData: Option<MessageData>, contactData: Option<ContactData>, now: int)
      returns (rolledBack: bool)
      requires store.Valid()
      modifies store
      ensures store.Valid()
      ensures store.Snapshot() == Ingest(old(store.Snapshot()), messageData, contactData, now).tables
      ensures rolledBack <==> Ingest(old(store.Snapshot()), messageData, contactData, now).outcome == RolledBack
    {
      if messageData.None? {
        return false;  // getFrom() throws
      }
      var m := messageData.value;
      var phoneNumber := m.from;
      var messageId := m.id;

      var existing := DuplicateLookup(store.messages, messageId);
      if existing.Threw? || existing.Found? {
        return false;
      }

      var body := BodyOf(m);

      if phoneNumber.None? {
        return true;  // the contact insert violates NOT NULL on phone
      }
      var phone := phoneNumber.value;
      var contact := store.FindByPhone(phone);
      if contact.None? {
        store.SaveContact(Contact(phone, IncomingName(contactData), now));
      } else if Renames(contact.value, contactData) {
        store.SaveContact(contact.value.(name := IncomingName(contactData)));
      }

      var seconds := ParseLong(m.timestamp);
      if seconds.None? {
        return false;  // NumberFormatException
      }
      store.SaveMessage(Message(messageId, Some(phone), body, false, Some(MulLong(seconds.value, 1000)), now));
      rolledBack := false;
    }

    /** getMessagesByPhone: the phone's messages, newest first. */
    function GetMessagesByPhone(phone: string): (r: seq<Message>)
      reads store
      ensures NewestFirst(r)
      ensures forall m :: m in r <==> m in store.messages && m.contactPhone == Some(phone)
      ensures forall m :: multiset(r)[m] == if m.contactPhone == Some(phone) then multiset(store.messages)[m] else 0
      ensures forall k :: WithTimestamp(r, k) == WithTimestamp(ForPhone(store.messages, phone), k)
    {
      var r := store.FindByContactPhoneOrderByTimestampDesc(phone);
      assert forall m :: m in r <==> multiset(r)[m] > 0;
      assert forall m :: m in store.messages <==> multiset(store.messages)[m] > 0;
      r
    }

    /** getMessagesByDateRange: exactly the messages with a timestamp
        strictly between the bounds, newest first, equal timestamps in table
        order. */
    function GetMessagesByDateRange(start: int, end: int): (r: seq<Message>)
      reads store
      ensures NewestFirst(r)
      ensures forall m :: multiset(r)[m] == if InWindow(m, start, end) then multiset(store.messages)[m] else 0
      ensures forall k :: WithTimestamp(r, k)
                          == if k.Some? && start < k.value < end then WithTimestamp(store.messages, k) else []
      ensures forall m :: m in r <==> m in store.messages && InWindow(m, start, end)
    {
      WithinKeepsTies(store.messages, start, end);
      var r := SortNewestFirst(Within(store.messages, start, end));
      assert forall m :: m in r <==> multiset(r)[m] > 0;
      assert forall m :: m in store.messages <==> multiset(store.messages)[m] > 0;
      r
    }
  }

  predicate InWindow(m: Message, start: int, end: int) {
    m.timestamp.Some? && start < m.timestamp.value < end
  }

  /** The messages of `s` in the window, in the order of `s`. */
  function Within(s: seq<Message>, start: int, end: int): (r: seq<Message>)
    ensures forall m :: multiset(r)[m] == if InWindow(m, start, end) then multiset(s)[m] else 0
  {
    if s == [] then []
    else
      assert s == [s[0]] + s[1..];
      (if InWindow(s[0], start, end) then [s[0]] else []) + Within(s[1..], start, end)
  }

  lemma {:induction false} WithTimestampAppend(a: seq<Message>, b: seq<Message>, k: Option<int>)
    ensures WithTimestamp(a + b, k) == WithTimestamp(a, k) + WithTimestamp(b, k)
    decreases |a|
  {
    if a == [] {
      assert a + b == b;
    } else {
      var ab := a + b;
      assert ab[0] == a[0];
      assert ab[1..] == a[1..] + b;
      WithTimestampAppend(a[1..], b, k);
      var head := if a[0].timestamp == k then [a[0]] else [];
      assert WithTimestamp(ab, k) == head + (WithTimestamp(a[1..], k) + WithTimestamp(b, k));
      assert WithTimestamp(a, k) == head + WithTimestamp(a[1..], k);
    }
  }

  /** Whether a message is in the window depends on its timestamp alone, so
      the filter keeps or drops all messages of one timestamp together. */
  lemma {:induction false} WithinKeepsTies(s: seq<Message>, start: int, end: int)
    ensures forall k :: WithTimestamp(Within(s, start, end), k)
                        == if k.Some? && start < k.value < end then WithTimestamp(s, k) else []
  {
    if s != [] {
      WithinKeepsTies(s[1..], start, end);
      var head := if InWindow(s[0], start, end) then [s[0]] else [];
      forall k ensures WithTimestamp(Within(s, start, end), k)
                       == if k.Some? && start < k.value < end then WithTimestamp(s, k) else [] {
        WithTimestampAppend(head, Within(s[1..], start, end), k);
      }
    }
  }
}
