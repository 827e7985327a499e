/** `MessageController`: webhook verification and delivery, the send
    endpoint, and the search and listing endpoints. */
module Controller {
  import opened Nullable
  import opened JavaLong
  import opened WebhookRequest
  import opened Entities
  import opened Repository
  import opened Service

  /** An HTTP reply: status code and text body. */
  datatype Response = Response(status: int, body: string)

  // ---- configuration and webhook verification ----

  const DefaultVerifyToken: string := "your_verify_token"

  /** The `whatsapp.*` properties the controller is configured with. */
  datatype Config = Config(phoneNumberId: string, accessToken: string, apiVersion: string, webhookVerifyToken: string)

  /** `whatsapp.webhook-verify-token`, which falls back to its built-in
      default when the property is absent. */
  function VerifyTokenSetting(property: Option<string>): string {
    property.GetOr(DefaultVerifyToken)
  }

  /** verifyWebhook: echoes the challenge with 200 exactly when the mode is
      "subscribe" and the token is the configured one; 403 otherwise. */
  function VerifyWebhook(config: Config, mode: string, token: string, challenge: string): (r: Response)
    ensures r.status == 200 <==> mode == "subscribe" && token == config.webhookVerifyToken
    ensures r.status == 200 ==> r.body == challenge
    ensures r.status != 200 ==> r == Response(403, "Verification failed")
  {
    if mode == "subscribe" && config.webhookVerifyToken == token then Response(200, challenge)
    else Response(403, "Verification failed")
  }

  /** Without the property, the default token verifies and any other fails. */
  lemma DefaultTokenVerifies(ids: string, access: string, version: string, token: string, challenge: string)
    ensures var config := Config(ids, access, version, VerifyTokenSetting(None));
      VerifyWebhook(config, "subscribe", token, challenge)
      == if token == "your_verify_token" then Response(200, challenge) else Response(403, "Verification failed")
  {
  }

  // ---- the traversal of a delivery ----

  /** The calls a (part of a) delivery makes, and whether the traversal got
      through it; `completed == false` means a NullPointerException on a
      null list element ended the traversal after `calls`. */
  datatype Walk = Walk(calls: seq<Call>, completed: bool)

  /** `w` followed by `next`, which is never reached if `w` threw. */
  function Then(w: Walk, next: Walk): Walk {
    if w.completed then Walk(w.calls + next.calls, next.completed) else w
  }

  /** `contacts.get(0)` when the contacts list is non-null and non-empty
      (the element itself may be null), else null. */
  function FirstContact(v: Value): (c: Option<ContactData>)
    ensures v.contacts.Some? && |v.contacts.value| > 0 ==> c == v.contacts.value[0]
    ensures v.contacts.None? || v.contacts.value == [] ==> c.None?
  {
    if v.contacts.Some? && |v.contacts.value| > 0 then v.contacts.value[0] else None
  }

  function MessageCalls(ms: seq<Option<MessageData>>, contact: Option<ContactData>): (r: seq<Call>)
    ensures |r| == |ms|
    ensures forall k :: 0 <= k < |ms| ==> r[k] == Call(ms[k], contact)
    decreases |ms|
  {
    if ms == [] then [] else [Call(ms[0], contact)] + MessageCalls(ms[1..], contact)
  }

  lemma {:induction false} MessageCallsAppend(a: seq<Option<MessageData>>, b: seq<Option<MessageData>>,
                                              contact: Option<ContactData>)
    ensures MessageCalls(a + b, contact) == MessageCalls(a, contact) + MessageCalls(b, contact)
    decreases |a|
  {
    if a == [] {
      assert a + b == b;
    } else {
      assert (a + b)[1..] == a[1..] + b;
      MessageCallsAppend(a[1..], b, contact);
    }
  }

  lemma MessageCallsSnoc(ms: seq<Option<MessageData>>, k: nat, contact: Option<ContactData>)
    requires k < |ms|
    ensures MessageCalls(ms[..k + 1], contact) == MessageCalls(ms[..k], contact) + [Call(ms[k], contact)]
  {
    assert ms[..k + 1] == ms[..k] + [ms[k]];
    MessageCallsAppend(ms[..k], [ms[k]], contact);
    assert [ms[k]][1..] == [];
  }

  /** Once the call for message `k` lets an exception escape, the later
      messages are never processed. */
  lemma MessageCallsEscape(t: Tables, ms: seq<Option<MessageData>>, k: nat, contact: Option<ContactData>, now: int)
    requires k < |ms| && IngestAll(t, MessageCalls(ms[..k + 1], contact), now).escaped
    ensures IngestAll(t, MessageCalls(ms, contact), now) == IngestAll(t, MessageCalls(ms[..k + 1], contact), now)
  {
    assert ms == ms[..k + 1] + ms[k + 1..];
    MessageCallsAppend(ms[..k + 1], ms[k + 1..], contact);
    IngestAllAppend(t, MessageCalls(ms[..k + 1], contact), MessageCalls(ms[k + 1..], contact), now);
  }

  /** A value without messages (a status update) makes no calls. */
  function ValueCalls(v: Value): (r: seq<Call>)
    ensures v.messages.None? ==> r == []
    ensures v.messages.Some? ==>
      && |r| == |v.messages.value|
      && forall k :: 0 <= k < |r| ==> r[k] == Call(v.messages.value[k], FirstContact(v))
  {
    if v.messages.Some? then MessageCalls(v.messages.value, FirstContact(v)) else []
  }

  function ChangeWalk(c: Option<Change>): Walk {
    match c
    case None => Walk([], false)  // change.getValue() on a null element
    case Some(change) => Walk(if change.value.Some? then ValueCalls(change.value.value) else [], true)
  }

  /** The changes loop; it gets through exactly when no change element is
      null. */
  function ChangesWalk(cs: seq<Option<Change>>): (w: Walk)
    ensures w.completed <==> NoNullChange(cs)
    decreases |cs|
  {
    if cs == [] then Walk([], true)
    else
      var rest := ChangesWalk(cs[1..]);
      assert NoNullChange(cs) <==> cs[0].Some? && NoNullChange(cs[1..]) by {
        if cs[0].Some? && NoNullChange(cs[1..]) {
          forall j | 0 <= j < |cs| ensures cs[j].Some? {
            if j > 0 { assert cs[j] == cs[1..][j - 1]; }
          }
        }
      }
      Then(ChangeWalk(cs[0]), rest)
  }

  function EntryWalk(e: Option<Entry>): Walk {
    match e
    case None => Walk([], false)  // entry.getChanges() on a null element
    case Some(entry) => if entry.changes.Some? then ChangesWalk(entry.changes.value) else Walk([], true)
  }

  /** The entries loop; it gets through exactly when no entry element,
      and no change element of one, is null. */
  function EntriesWalk(es: seq<Option<Entry>>): (w: Walk)
    ensures w.completed <==> NoNullElement(Request(None, Some(es)))
    decreases |es|
  {
    if es == [] then Walk([], true)
    else
      var rest := EntriesWalk(es[1..]);
      assert NoNullElement(Request(None, Some(es))) <==>
             EntryWalk(es[0]).completed && NoNullElement(Request(None, Some(es[1..]))) by {
        if !NoNullElement(Request(None, Some(es))) {
          var i :| 0 <= i < |es| && !(es[i].Some? && (es[i].value.changes.Some? ==> NoNullChange(es[i].value.changes.value)));
          if i > 0 { assert es[i] == es[1..][i - 1]; }
        }
      }
      Then(EntryWalk(es[0]), rest)
  }

  /** The processIncomingMessage calls receiveWebhook makes for a delivery;
      the traversal gets through the whole delivery exactly when no list
      element it walks is null. */
  function DeliveryWalk(request: Request): (w: Walk)
    ensures w.completed <==> NoNullElement(request)
    ensures request.entry.None? || request.entry.value == [] ==> w == Walk([], true)
  {
    if request.entry.None? || |request.entry.value| == 0 then Walk([], true)
    else EntriesWalk(request.entry.value)
  }

  lemma ThenAssociative(a: Walk, b: Walk, c: Walk)
    ensures Then(Then(a, b), c) == Then(a, Then(b, c))
  {
    if a.completed && b.completed {
      assert (a.calls + b.calls) + c.calls == a.calls + (b.calls + c.calls);
    }
  }

  lemma ThenUnit(w: Walk)
    ensures Then(w, Walk([], true)) == w
  {
    assert w.calls + [] == w.calls;
  }

  /** Changes are walked in list order: a list split in two is walked as
      its first part followed by its second. */
  lemma {:induction false} ChangesWalkAppend(a: seq<Option<Change>>, b: seq<Option<Change>>)
    ensures ChangesWalk(a + b) == Then(ChangesWalk(a), ChangesWalk(b))
    decreases |a|
  {
    if a == [] {
      assert a + b == b;
      assert [] + ChangesWalk(b).calls == ChangesWalk(b).calls;
    } else {
      assert (a + b)[1..] == a[1..] + b;
      ChangesWalkAppend(a[1..], b);
      ThenAssociative(ChangeWalk(a[0]), ChangesWalk(a[1..]), ChangesWalk(b));
    }
  }

  /** Entries are walked in list order, in the same sense. */
  lemma {:induction false} EntriesWalkAppend(a: seq<Option<Entry>>, b: seq<Option<Entry>>)
    ensures EntriesWalk(a + b) == Then(EntriesWalk(a), EntriesWalk(b))
    decreases |a|
  {
    if a == [] {
      assert a + b == b;
      assert [] + EntriesWalk(b).calls == EntriesWalk(b).calls;
    } else {
      assert (a + b)[1..] == a[1..] + b;
      EntriesWalkAppend(a[1..], b);
      ThenAssociative(EntryWalk(a[0]), EntriesWalk(a[1..]), EntriesWalk(b));
    }
  }

  lemma ChangesWalkSingle(x: Option<Change>)
    ensures ChangesWalk([x]) == ChangeWalk(x)
  {
    assert [x][1..] == [];
    ThenUnit(ChangeWalk(x));
  }

  /** The element at `j` is walked after those before it. */
  lemma ChangesWalkAt(cs: seq<Option<Change>>, j: nat)
    requires j < |cs|
    ensures ChangesWalk(cs[..j + 1]) == Then(ChangesWalk(cs[..j]), ChangeWalk(cs[j]))
  {
    var before, x := cs[..j], cs[j];
    assert cs[..j + 1] == before + [x];
    ChangesWalkAppend(before, [x]);
    ChangesWalkSingle(x);
  }

  /** The walk of a list is the walk of its first `n` elements followed
      by the walk of the rest. */
  lemma ChangesWalkSplitAt(cs: seq<Option<Change>>, n: nat)
    requires n <= |cs|
    ensures ChangesWalk(cs) == Then(ChangesWalk(cs[..n]), ChangesWalk(cs[n..]))
  {
    assert cs == cs[..n] + cs[n..];
    ChangesWalkAppend(cs[..n], cs[n..]);
  }

  lemma EntriesWalkSingle(x: Option<Entry>)
    ensures EntriesWalk([x]) == EntryWalk(x)
  {
    assert [x][1..] == [];
    ThenUnit(EntryWalk(x));
  }

  /** The element at `i` is walked after those before it. */
  lemma EntriesWalkAt(es: seq<Option<Entry>>, i: nat)
    requires i < |es|
    ensures EntriesWalk(es[..i + 1]) == Then(EntriesWalk(es[..i]), EntryWalk(es[i]))
  {
    var before, x := es[..i], es[i];
    assert es[..i + 1] == before + [x];
    EntriesWalkAppend(before, [x]);
    EntriesWalkSingle(x);
  }

  /** The walk of a list is the walk of its first `n` elements followed
      by the walk of the rest. */
  lemma EntriesWalkSplitAt(es: seq<Option<Entry>>, n: nat)
    requires n <= |es|
    ensures EntriesWalk(es) == Then(EntriesWalk(es[..n]), EntriesWalk(es[n..]))
  {
    assert es == es[..n] + es[n..];
    EntriesWalkAppend(es[..n], es[n..]);
  }

  /** Every message of a value is passed once, in list order, with the
      value's first contact. */
  lemma EachMessageWithFirstContact(v: Value)
    requires v.messages.Some?
    ensures |ValueCalls(v)| == |v.messages.value|
    ensures forall k :: 0 <= k < |v.messages.value| ==>
      ValueCalls(v)[k] == Call(v.messages.value[k],
                               if v.contacts.Some? && |v.contacts.value| > 0 then v.contacts.value[0] else None)
  {
  }

  /** A delivery with no entry list, or an empty one, makes no calls. */
  lemma EmptyDeliveryMakesNoCalls(request: Request)
    requires request.entry.None? || request.entry.value == []
    ensures DeliveryWalk(request) == Walk([], true)
  {
  }

  /** Null `changes`, null `value` and null `messages` contribute no calls. */
  lemma NullLevelsMakeNoCalls(e: Entry, c: Change, v: Value)
    ensures e.changes.None? ==> EntryWalk(Some(e)) == Walk([], true)
    ensures c.value.None? ==> ChangeWalk(Some(c)) == Walk([], true)
    ensures v.messages.None? ==> ValueCalls(v) == []
  {
  }

  ghost predicate NoNullChange(cs: seq<Option<Change>>) {
    forall j :: 0 <= j < |cs| ==> cs[j].Some?
  }

  /** No element of the entry list, or of a non-null changes list, is null. */
  ghost predicate NoNullElement(request: Request) {
    request.entry.Some? ==>
      forall i :: 0 <= i < |request.entry.value| ==>
        && request.entry.value[i].Some?
        && (request.entry.value[i].value.changes.Some? ==> NoNullChange(request.entry.value[i].value.changes.value))
  }

  /** The changes `cs`, with every non-null change's `field` replaced by `f`. */
  function ChangesWithField(cs: seq<Option<Change>>, f: Option<string>): seq<Option<Change>> {
    seq(|cs|, j requires 0 <= j < |cs| => if cs[j].Some? then Some(cs[j].value.(field := f)) else None)
  }

  function EntriesWithField(es: seq<Option<Entry>>, f: Option<string>): seq<Option<Entry>> {
    seq(|es|, i requires 0 <= i < |es| =>
      if es[i].Some? && es[i].value.changes.Some?
      then Some(es[i].value.(changes := Some(ChangesWithField(es[i].value.changes.value, f))))
      else es[i])
  }

  function WithField(request: Request, f: Option<string>): Request {
    if request.entry.Some? then request.(entry := Some(EntriesWithField(request.entry.value, f))) else request
  }

  lemma {:induction false} ChangesFieldIgnored(cs: seq<Option<Change>>, f: Option<string>)
    ensures ChangesWalk(ChangesWithField(cs, f)) == ChangesWalk(cs)
    decreases |cs|
  {
    if cs != [] {
      var shifted, rest := ChangesWithField(cs, f)[1..], ChangesWithField(cs[1..], f);
      forall j | 0 <= j < |rest| ensures shifted[j] == rest[j] {
        assert cs[1..][j] == cs[j + 1];
      }
      assert shifted == rest;
      ChangesFieldIgnored(cs[1..], f);
    }
  }

  lemma {:induction false} EntriesFieldIgnored(es: seq<Option<Entry>>, f: Option<string>)
    ensures EntriesWalk(EntriesWithField(es, f)) == EntriesWalk(es)
    decreases |es|
  {
    if es != [] {
      var shifted, rest := EntriesWithField(es, f)[1..], EntriesWithField(es[1..], f);
      forall i | 0 <= i < |rest| ensures shifted[i] == rest[i] {
        assert es[1..][i] == es[i + 1];
      }
      assert shifted == rest;
      EntriesFieldIgnored(es[1..], f);
      if es[0].Some? && es[0].value.changes.Some? {
        ChangesFieldIgnored(es[0].value.changes.value, f);
      }
    }
  }

  /** `change.field` is never consulted: whatever it holds, the delivery
      makes the same calls. */
  lemma FieldNeverConsulted(request: Request, f: Option<string>)
    ensures DeliveryWalk(WithField(request, f)) == DeliveryWalk(request)
  {
    if request.entry.Some? {
      EntriesFieldIgnored(request.entry.value, f);
    }
  }

  // ---- the outbound recipient ----

  /** `replaceAll("[^0-9]", "")`: drops every character but ASCII digits. */
  function StripNonDigits(s: string): (r: string)
    ensures AllDigits(r)
    ensures |r| <= |s|
  {
    if s == [] then [] else (if IsDigit(s[0]) then [s[0]] else []) + StripNonDigits(s[1..])
  }

  /** Stripping works piecewise, so the digits keep their order. */
  lemma {:induction false} StripAppend(a: string, b: string)
    ensures StripNonDigits(a + b) == StripNonDigits(a) + StripNonDigits(b)
    decreases |a|
  {
    if a == [] {
      assert a + b == b;
    } else {
      assert (a + b)[1..] == a[1..] + b;
      StripAppend(a[1..], b);
    }
  }

  /** Exactly the digits survive, each as often as it occurs. */
  lemma {:induction false} StripKeepsDigits(s: string)
    ensures forall c :: multiset(StripNonDigits(s))[c] == if IsDigit(c) then multiset(s)[c] else 0
    decreases |s|
  {
    if s != [] {
      StripKeepsDigits(s[1..]);
      assert s == [s[0]] + s[1..];
    }
  }

  /** A string of digits is left as it is. */
  lemma {:induction false} StripDigitsUnchanged(s: string)
    requires AllDigits(s)
    ensures StripNonDigits(s) == s
    decreases |s|
  {
    if s != [] {
      StripDigitsUnchanged(s[1..]);
    }
  }

  lemma StripIdempotent(s: string)
    ensures StripNonDigits(StripNonDigits(s)) == StripNonDigits(s)
  {
    StripDigitsUnchanged(StripNonDigits(s));
  }

  /** The phone "+1 555 123 4567" goes to the provider as "15551234567". */
  lemma StripScenario()
    ensures StripNonDigits("+1 " + "555 " + "123 " + "4567") == "1" + "555" + "123" + "4567"
  {
    assert StripNonDigits("+1 ") == "1";
    assert StripNonDigits("555 ") == "555";
    assert StripNonDigits("123 ") == "123";
    StripDigitsUnchanged("4567");
    StripAppend("+1 " + "555 " + "123 ", "4567");
    StripAppend("+1 " + "555 ", "123 ");
    StripAppend("+1 ", "555 ");
  }

  // ---- listing and search ----

  /** A `@RequestParam` with a default: the default replaces a missing or
      empty value. */
  function ParamOrDefault(v: Option<string>, default: string): (r: string)
    ensures r == default || (v.Some? && r == v.value)
    ensures default != "" ==> r != ""
    ensures v.Some? && v.value != "" ==> r == v.value
  {
    if v.None? || v.value == "" then default else v.value
  }

  /** The twelve spellings `equalsIgnoreCase("ASC")` accepts. */
  const AscSpellings: set<string> :=
    {"ASC", "ASc", "AsC", "Asc", "A\U{017F}C", "A\U{017F}c",
     "aSC", "aSc", "asC", "asc", "a\U{017F}C", "a\U{017F}c"}

  /** `s.equalsIgnoreCase("ASC")`: per character, equal, equal in upper
      case, or equal in lower case of upper case; for these three letters
      that admits only the two ASCII cases and, for 'S', U+017F LATIN SMALL
      LETTER LONG S, whose upper case is 'S'. */
  predicate IsAscKeyword(s: string)
    ensures IsAscKeyword(s) <==> s in AscSpellings
  {
    if |s| != 3 then false
    else
      assert s == [s[0], s[1], s[2]];
      && (s[0] == 'A' || s[0] == 'a')
      && (s[1] == 'S' || s[1] == 's' || s[1] == '\U{017F}')
      && (s[2] == 'C' || s[2] == 'c')
  }

  datatype Direction = Ascending | Descending

  function SortDirection(sortDir: string): (d: Direction)
    ensures d == Ascending <==> IsAscKeyword(sortDir)
  {
    if IsAscKeyword(sortDir) then Ascending else Descending
  }

  lemma SortDirectionDefaults()
    ensures SortDirection(ParamOrDefault(None, "DESC")) == Descending
    ensures SortDirection("asc") == Ascending && SortDirection("Asc") == Ascending
    ensures SortDirection("ascending") == Descending
  {
  }

  /** What getAllMessages answers with: a page request handed to the
      store, or the whole message table. */
  datatype Listing = PageOf(page: int, size: int, sortBy: string, direction: Direction) | Everything(messages: seq<Message>)

  datatype SearchResult = Results(messages: seq<Message>) | BadRequest

  /** A provider reply to the send call, or the exception the call threw. */
  datatype ProviderReply = Responded(status: int, body: Option<string>) | Raised(message: Option<string>)

  /** The outward effects of the send endpoint, in the order they happen. */
  datatype Event = Saved(message: Message) | Posted(to: string, text: string)

  /** The row recorded for an outbound message, with the raw phone. */
  function Outbound(phone: Option<string>, text: Option<string>, now: int): (m: Message)
    ensures m.fromMe && m.whatsappMessageId.None?
    ensures m.contactPhone == phone && m.body == text
    ensures m.timestamp == Some(now) && m.createdAt == now
  {
    Message(None, phone, text, true, Some(now), now)
  }

  /** An outbound row carries no provider id, so it never makes an inbound
      message with an id look like a duplicate. */
  lemma OutboundNeverShadowsInbound(messages: seq<Message>, phone: Option<string>, text: Option<string>,
                                    now: int, id: Option<string>)
    requires id.Some?
    ensures DuplicateLookup(messages + [Outbound(phone, text, now)], id).Found?
        <==> DuplicateLookup(messages, id).Found?
  {
    var all := messages + [Outbound(phone, text, now)];
    if DuplicateLookup(all, id).Found? {
      var i := DuplicateLookup(all, id).index;
      assert all[|messages|].whatsappMessageId.None?;
      assert all[i] == messages[i];
    }
    if DuplicateLookup(messages, id).Found? {
      var i := DuplicateLookup(messages, id).index;
      assert all[i] == messages[i];
    }
  }

  class MessageController {
    const store: Store
    const service: MessageService
    const config: Config
    /** Saves and provider posts made by the send endpoint. */
    ghost var events: seq<Event>

    ghost predicate Valid()
      reads this, store
    {
      service.store == store && store.Valid()
    }

    constructor (store: Store, service: MessageService, config: Config)
      requires service.store == store && store.Valid()
      ensures Valid()
      ensures this.store == store && this.service == service && this.config == config
      ensures events == []
    {
      this.store := store;
      this.service := service;
      this.config := config;
      events := [];
    }

    /** getAllMessages: paginated only when both page and size are given;
        ascending only for "ASC" in any case. */
    function GetAllMessages(page: Option<int>, size: Option<int>, sortBy: Option<string>, sortDir: Option<string>)
      : (r: Listing)
      reads store
      ensures r.PageOf? <==> page.Some? && size.Some?
      ensures r.PageOf? ==> r.page == page.value && r.size == size.value
      ensures r.PageOf? ==> r.sortBy == ParamOrDefault(sortBy, "timestamp")
      ensures r.PageOf? ==> (r.direction == Ascending <==> IsAscKeyword(ParamOrDefault(sortDir, "DESC")))
      ensures r.Everything? ==> r.messages == store.messages
    {
      if page.Some? && size.Some? then
        PageOf(page.value, size.value, ParamOrDefault(sortBy, "timestamp"), SortDirection(ParamOrDefault(sortDir, "DESC")))
      else Everything(store.messages)
    }

    /** The date branch of searchMessages: both dates present and parsed,
        else a bad request. */
    function SearchByDates(startDate: Option<string>, endDate: Option<string>,
                           parseTimestamp: string -> Option<int>): (r: SearchResult)
      reads service.store
      ensures r.Results? <==>
        && startDate.Some? && endDate.Some?
        && parseTimestamp(startDate.value).Some? && parseTimestamp(endDate.value).Some?
      ensures r.Results? ==>
        var start, end := parseTimestamp(startDate.value).value, parseTimestamp(endDate.value).value;
        && r.messages == service.GetMessagesByDateRange(start, end)
        && forall m :: m in r.messages ==> InWindow(m, start, end)
    {
      if startDate.Some? && endDate.Some? then
        var start := parseTimestamp(startDate.value);
        var end := parseTimestamp(endDate.value);
        if start.None? || end.None? then BadRequest  // IllegalArgumentException
        else
          Results(service.GetMessagesByDateRange(start.value, end.value))
      else BadRequest
    }

    /** searchMessages: a non-empty phone wins; else both dates must be
        present and parse; anything else is a bad request. */
    function SearchMessages(phone: Option<string>, startDate: Option<string>, endDate: Option<string>,
                            parseTimestamp: string -> Option<int>): (r: SearchResult)
      reads service.store
      ensures phone.Some? && phone.value != "" ==> r == Results(service.GetMessagesByPhone(phone.value))
      ensures r.Results? && phone.Some? && phone.value != "" ==>
        forall m :: m in r.messages ==> m.contactPhone == phone
      ensures r.Results? && !(phone.Some? && phone.value != "") ==>
        && startDate.Some? && endDate.Some?
        && parseTimestamp(startDate.value).Some? && parseTimestamp(endDate.value).Some?
        && r.messages == service.GetMessagesByDateRange(parseTimestamp(startDate.value).value,
                                                        parseTimestamp(endDate.value).value)
        && forall m :: m in r.messages ==>
             InWindow(m, parseTimestamp(startDate.value).value, parseTimestamp(endDate.value).value)
      ensures r == BadRequest <==>
        && !(phone.Some? && phone.value != "")
        && !(startDate.Some? && endDate.Some?
             && parseTimestamp(startDate.value).Some? && parseTimestamp(endDate.value).Some?)
    {
      if phone.Some? && phone.value != "" then Results(service.GetMessagesByPhone(phone.value))
      else SearchByDates(startDate, endDate, parseTimestamp)
    }

    /** receiveWebhook: walks the delivery, calling processIncomingMessage
        once per message; always answers 200, with "Error processed" when a
        null element or an escaping exception ended the walk. */
    method ReceiveWebhook(request: Request, now: int) returns (response: Response)
      requires Valid()
      modifies store
      ensures Valid()
      ensures store.Snapshot() == IngestAll(old(store.Snapshot()), DeliveryWalk(request).calls, now).tables
      ensures response == Response(200, if DeliveryWalk(request).completed
                                           && !IngestAll(old(store.Snapshot()), DeliveryWalk(request).calls, now).escaped
                                        then "OK" else "Error processed")
    {
      ghost var start := store.Snapshot();
      if request.entry.None? || |request.entry.value| == 0 {
        return Response(200, "OK");
      }
      var entries := request.entry.value;
      var i := 0;
      while i < |entries|
        invariant 0 <= i <= |entries|
        invariant Valid()
        invariant EntriesWalk(entries[..i]).completed
        invariant IngestAll(start, EntriesWalk(entries[..i]).calls, now) == Run(store.Snapshot(), false)
      {
        EntriesWalkAt(entries, i);
        EntriesWalkSplitAt(entries, i + 1);
        ghost var prefix := EntriesWalk(entries[..i]).calls;
        if entries[i].None? {
          assert prefix + [] == prefix;
          return Response(200, "Error processed");  // getChanges() on a null entry
        }
        var entry := entries[i].value;
        if entry.changes.Some? {
          var completed := ReceiveChanges(entry.changes.value, now);
          IngestAllAppend(start, prefix, EntryWalk(entries[i]).calls, now);
          if !completed {
            if EntriesWalk(entries[..i + 1]).completed {
              IngestAllAppend(start, EntriesWalk(entries[..i + 1]).calls, EntriesWalk(entries[i + 1..]).calls, now);
            }
            return Response(200, "Error processed");
          }
        } else {
          assert prefix + [] == prefix;
        }
        i := i + 1;
      }
      assert entries[..i] == entries;
      return Response(200, "OK");
    }

    /** The loop of receiveWebhook over one entry's changes; `completed`
        is false when it met a null change or an exception escaped. */
    method ReceiveChanges(changes: seq<Option<Change>>, now: int) returns (completed: bool)
      requires Valid()
      modifies store
      ensures Valid()
      ensures store.Snapshot() == IngestAll(old(store.Snapshot()), ChangesWalk(changes).calls, now).tables
      ensures completed == (ChangesWalk(changes).completed
                            && !IngestAll(old(store.Snapshot()), ChangesWalk(changes).calls, now).escaped)
    {
      ghost var start := store.Snapshot();
      var j := 0;
      while j < |changes|
        invariant 0 <= j <= |changes|
        invariant Valid()
        invariant ChangesWalk(changes[..j]).completed
        invariant IngestAll(start, ChangesWalk(changes[..j]).calls, now) == Run(store.Snapshot(), false)
      {
        ChangesWalkAt(changes, j);
        ChangesWalkSplitAt(changes, j + 1);
        ghost var prefix := ChangesWalk(changes[..j]).calls;
        if changes[j].None? {
          assert prefix + [] == prefix;
          return false;  // getValue() on a null change
        }
        var change := changes[j].value;
        var escaped := false;
        if change.value.Some? {
          escaped := ReceiveValue(change.value.value, now);
        }
        IngestAllAppend(start, prefix, ChangeWalk(changes[j]).calls, now);
        if escaped {
          IngestAllAppend(start, ChangesWalk(changes[..j + 1]).calls, ChangesWalk(changes[j + 1..]).calls, now);
          return false;
        }
        j := j + 1;
      }
      assert changes[..j] == changes;
      return true;
    }

    /** The loop of receiveWebhook over one value's messages, each passed
        with the value's first contact; `escaped` is the exception a call
        let through, which ends the loop. */
    method ReceiveValue(value: Value, now: int) returns (escaped: bool)
      requires Valid()
      modifies store
      ensures Valid()
      ensures store.Snapshot() == IngestAll(old(store.Snapshot()), ValueCalls(value), now).tables
      ensures escaped == IngestAll(old(store.Snapshot()), ValueCalls(value), now).escaped
    {
      if value.messages.None? {
        return false;  // a status-only delivery
      }
      ghost var start := store.Snapshot();
      var messages := value.messages.value;
      var k := 0;
      while k < |messages|
        invariant 0 <= k <= |messages|
        invariant Valid()
        invariant IngestAll(start, MessageCalls(messages[..k], FirstContact(value)), now) == Run(store.Snapshot(), false)
      {
        var contact := None;
        if value.contacts.Some? && |value.contacts.value| > 0 {
          contact := value.contacts.value[0];
        }
        assert contact == FirstContact(value);
        ghost var before := store.Snapshot();
        var rolledBack := service.ProcessIncomingMessage(messages[k], contact, now);
        IngestOne(before, Call(messages[k], contact), now);
        MessageCallsSnoc(messages, k, contact);
        IngestAllAppend(start, MessageCalls(messages[..k], contact), [Call(messages[k], contact)], now);
        if rolledBack {
          MessageCallsEscape(start, messages, k, contact, now);
          return true;
        }
        k := k + 1;
      }
      assert messages[..k] == messages;
      return false;
    }

    /** sendMessage: saves the outbound row first, then posts to the
        provider with the digits of the phone; the row stays whatever the
        provider answers. */
    method SendMessage(phone: Option<string>, text: Option<string>, now: int,
                       reply: ProviderReply, nullPhoneMessage: Option<string>) returns (response: Response)
      requires Valid()
      modifies this, store
      ensures Valid()
      ensures store.messages == old(store.messages) + [Outbound(phone, text, now)]
      ensures store.contacts == old(store.contacts)
      ensures events == old(events) + [Saved(Outbound(phone, text, now))]
                        + (if phone.Some? then [Posted(StripNonDigits(phone.value), Render(text))] else [])
      ensures phone.None? ==> response == Response(500, "Error: " + Render(nullPhoneMessage))
      ensures phone.Some? && reply.Responded? && reply.status == 200 ==>
        response == Response(200, "Message sent to WhatsApp!")
      ensures phone.Some? && reply.Responded? && reply.status != 200 ==>
        response == Response(500, "WhatsApp API error: " + Render(reply.body))
      ensures phone.Some? && reply.Raised? ==> response == Response(500, "Error: " + Render(reply.message))
    {
      var msg := Outbound(phone, text, now);
      store.SaveMessage(msg);
      events := events + [Saved(msg)];

      if phone.None? {
        return Response(500, "Error: " + Render(nullPhoneMessage));  // replaceAll on null
      }
      var to := StripNonDigits(phone.value);
      events := events + [Posted(to, Render(text))];
      match reply
      case Raised(message) =>
        response := Response(500, "Error: " + Render(message));
      case Responded(status, body) =>
        if status == 200 {
          response := Response(200, "Message sent to WhatsApp!");
        } else {
          response := Response(500, "WhatsApp API error: " + Render(body));
        }
    }
  }
}
