# whatsapp-crm message core, modelled in Dafny

The whatsapp-crm backend receives WhatsApp Cloud API webhooks. It stores each
inbound message, and creates or renames the sender's contact. It also
answers the webhook verification handshake, lists and searches the message
table, and sends outbound text messages through the provider. This project
models that core: `MessageService`, `MessageController` and the two
repository query contracts they rely on. The model is stated on Java's own
terms:

- every reference the code can see as `null` is an `Option`, down to the
  elements of the webhook's lists;
- every exception the code swallows is an explicit outcome;
- `Long.parseLong` and the 64-bit `* 1000` are written out with their range
  check and wrap-around.

Modules, one per source concern:

| file | module | models |
|---|---|---|
| `nullable.dfy` | `Nullable` | Java `null` as `Option`, and `String.valueOf` of a nullable string |
| `java_long.dfy` | `JavaLong` | `Long.parseLong`, `Long.toString`, 64-bit multiplication |
| `webhook_request.dfy` | `WebhookRequest` | the `WhatsAppWebhookRequest` DTO tree, every field nullable |
| `entities.dfy` | `Entities` | the `Message` and `Contact` rows |
| `repository.dfy` | `Repository` | the two tables as a mutable `Store`, `findByPhone`, `findByContactPhoneOrderByTimestampDesc`, and the stable newest-first sort |
| `message_service.dfy` | `Service` | `processIncomingMessage` as a pure step `Ingest` plus the imperative method proved against it, and `getMessagesByDateRange` |
| `message_controller.dfy` | `Controller` | `verifyWebhook`, `receiveWebhook` (its three nested loops), `sendMessage`, `getAllMessages`, `searchMessages` |

`processIncomingMessage` follows the Java order exactly:

1. The call looks for a stored message with the incoming id. An equal id
   means nothing changes. A null id throws as soon as a stored message is
   compared, so it throws on a non-empty table only.
2. It renders the body: text, else image, else document, else `""`.
3. It creates the contact, or renames an existing one.
4. It parses the timestamp.
5. It appends the message row.

The service catches every exception. One thrown by the service's own code
is swallowed, and whatever was saved before that step stays: a null message,
a null id compared in the stream over `findAll()`, or a timestamp that does
not parse. One thrown inside a repository call is different. The repository
runs inside its own transactional proxy, and that proxy marks the service's
transaction rollback-only. The service still swallows the exception, but its
commit then throws to the controller. Nothing of that call is kept, the
contact change included, and `receiveWebhook` stops there with "Error
processed". This holds for every failure inside a repository call. The
model contains only one of them: a message without a sender, whose contact
insert violates the NOT NULL phone column. Column lengths and the other
database constraints are left out (see "## Left out"), so failures such as
a provider id too long for its column are not modelled.

`receiveWebhook` is modelled as a `Walk`: the sequence of
`processIncomingMessage` calls plus whether the traversal got past every
null list element. `IngestAll` runs those calls in order and stops at the
first one whose exception escapes. The controller's loops are proved to
leave the tables exactly as `IngestAll` says.

Four behaviours of the code are easy to assume otherwise. The model
follows the code in each:

- an inbound message whose provider id is already stored is skipped;
- a contact without a profile name keeps a null name; no placeholder name
  is stored;
- only text, image and document messages get a rendering, and every other
  type stores an empty body;
- `change.field` is never consulted, so a change of any kind is walked.

## Model

| member | source | states |
|---|---|---|
| JavaLong.ParseLong | src/main/java/com/example/whatsapp_crm/service/MessageService.java:83 | a parsed value is within the 64-bit range; null and empty strings fail; an all-digit string, optionally after one `+` or `-`, parses exactly when its value is within range, to that value; a lone `+` or `-` fails, and so does any other string |
| JavaLong.ParseLongToString | src/main/java/com/example/whatsapp_crm/service/MessageService.java:83 | every 64-bit value parses back from its decimal rendering |
| JavaLong.Wrap | src/main/java/com/example/whatsapp_crm/service/MessageService.java:83 | the result is in range and congruent to the input modulo 2^64; an in-range input is kept |
| JavaLong.MulLong | src/main/java/com/example/whatsapp_crm/service/MessageService.java:83 | `seconds * 1000` as Java long multiplication: in range, congruent to the true product modulo 2^64, and the true product whenever that fits |
| Repository.SortNewestFirst | src/main/java/com/example/whatsapp_crm/service/MessageService.java:115 | the result is ordered newest first (null timestamps last), a permutation of the input, and stable: the messages of each timestamp keep their input order |
| Repository.ForPhone | src/main/java/com/example/whatsapp_crm/repository/MessageRepository.java:9 | keeps every copy of each message stored for the phone, and nothing else |
| Repository.Store.FindByPhone | src/main/java/com/example/whatsapp_crm/repository/ContactRepository.java:7 | returns a contact exactly when the phone is known, and then the one contact carrying that phone |
| Repository.Store.SaveContact | src/main/java/com/example/whatsapp_crm/service/MessageService.java:68-74 | inserts or replaces the contact under its phone, keeps the one-contact-per-phone invariant, and leaves messages alone |
| Repository.Store.SaveMessage | src/main/java/com/example/whatsapp_crm/service/MessageService.java:86 | appends exactly one row and leaves contacts alone |
| Repository.Store.FindByContactPhoneOrderByTimestampDesc | src/main/java/com/example/whatsapp_crm/repository/MessageRepository.java:9 | exactly the phone's messages, each as often as stored, newest first, ties in table order |
| Service.DuplicateLookup | src/main/java/com/example/whatsapp_crm/service/MessageService.java:36-39 | throws exactly for a null id on a non-empty table; otherwise finds the first stored message with the id, or reports that none has it |
| Service.DuplicateLeavesTablesUnchanged | src/main/java/com/example/whatsapp_crm/service/MessageService.java:41-43 | a message whose id is already stored changes nothing |
| Service.NullLookupLeavesTablesUnchanged | src/main/java/com/example/whatsapp_crm/service/MessageService.java:32-39 | a null message, or a null id met by a stored message, is a swallowed failure that changes nothing |
| Service.AppendOnSuccess | src/main/java/com/example/whatsapp_crm/service/MessageService.java:77-86 | a new id (a null one too, on an empty table), a sender and a parseable timestamp: exactly one row appended, with id, sender, body, `fromMe` false, provider time in ms and local time |
| Service.MessagesOnlyGrow | src/main/java/com/example/whatsapp_crm/service/MessageService.java:29-92 | one call appends one row when it stores and none otherwise; old rows are untouched |
| Service.NewContactCreated | src/main/java/com/example/whatsapp_crm/service/MessageService.java:60-68 | an unseen sender gets a contact with its phone, the profile name (or null) and the local time; other contacts stay |
| Service.ExistingContactRenamedOnly | src/main/java/com/example/whatsapp_crm/service/MessageService.java:69-75 | a known sender's contact keeps phone and creation time, and changes exactly when a non-null incoming name differs from the stored one (the helpers `IncomingName` and `Renames` model the profile-name read and the rename condition) |
| Service.BadTimestampKeepsContactChange | src/main/java/com/example/whatsapp_crm/service/MessageService.java:59-92 | an unparseable timestamp keeps the contact step's effect and appends no row |
| Service.BodyPriority | src/main/java/com/example/whatsapp_crm/service/MessageService.java:45-57 | the body is the text, else the image form with or without caption, else the document form with file name, else empty |
| Service.TypeFieldIgnored | src/main/java/com/example/whatsapp_crm/service/MessageService.java:45-57 | the message `type` field does not affect ingestion |
| Service.ReplayChangesNothing | src/main/java/com/example/whatsapp_crm/service/MessageService.java:35-43 | once a message with an id is stored, delivering it again with any contact data at any time changes nothing |
| Service.Ingest | src/main/java/com/example/whatsapp_crm/service/MessageService.java:29-92 | a call stores exactly when the message is present, its id is not found, its sender is present and its timestamp parses; it rolls back exactly when the sender is null and the lookup finds nothing; outcomes other than storing and a bad timestamp leave both tables as they were |
| Service.IngestAll | src/main/java/com/example/whatsapp_crm/controller/MessageController.java:148-170 | a sequence of calls adds at most one message per call, and an exception can escape only from a non-empty sequence |
| Service.BodyOf | src/main/java/com/example/whatsapp_crm/service/MessageService.java:45-57 | the text body wins, even when null; otherwise the body is never null, starts with "[Image]" for an image and with "[Document: " for a document, and is empty without either |
| Service.UpsertContact | src/main/java/com/example/whatsapp_crm/service/MessageService.java:59-75 | the sender's phone is afterwards a key; other contacts stay; a new contact has the phone, the profile name and the local time; a known one keeps phone and creation time and either keeps its name or takes the incoming one; one contact per phone is kept; it uses the helpers `IncomingName` and `Renames` |
| Service.Inbound | src/main/java/com/example/whatsapp_crm/service/MessageService.java:77-84 | the row keeps the message id and the sender, is not `fromMe`, carries the local time, and its timestamp is the 64-bit wrap of seconds times 1000 |
| Service.IngestAllAppend | src/main/java/com/example/whatsapp_crm/controller/MessageController.java:148-170 | running two call sequences in turn is running their concatenation, except that nothing runs after an escaped exception |
| Service.IngestOne | src/main/java/com/example/whatsapp_crm/service/MessageService.java:29-92 | a single call escapes exactly when its step rolls back, and leaves that step's tables |
| Service.OnlyANullSenderEscapes | src/main/java/com/example/whatsapp_crm/service/MessageService.java:59-68 | a sequence of calls without a message that lacks a sender lets no exception escape |
| Service.IngestAllPreserves | src/main/java/com/example/whatsapp_crm/service/MessageService.java:29-92 | over any sequence of calls: still one contact per phone, no contact lost or re-dated, old messages a prefix of the table |
| Service.FirstTextFromNewPhone | src/main/java/com/example/whatsapp_crm/service/MessageService.java:29-92 | a first text "hi" from an unseen phone with profile Ana yields exactly one message stamped 1700000000000 and one contact Ana |
| Service.ScenarioTimestampParses | src/main/java/com/example/whatsapp_crm/service/MessageService.java:83 | "1700000000" parses to 1700000000 |
| Service.MessageService.ProcessIncomingMessage | src/main/java/com/example/whatsapp_crm/service/MessageService.java:29-92 | the imperative method leaves the tables exactly as `Ingest` says, one contact per phone, and reports an escaping exception exactly when `Ingest` rolls back |
| Service.MessageService.GetMessagesByPhone | src/main/java/com/example/whatsapp_crm/service/MessageService.java:102-104 | exactly the stored messages of that phone, each as often as it is stored, newest first, equal timestamps in table order |
| Service.MessageService.GetMessagesByDateRange | src/main/java/com/example/whatsapp_crm/service/MessageService.java:110-117 | exactly the messages strictly inside the window, each as often as stored, newest first, ties in table order; a message is in the result exactly when it is stored and inside the window |
| Service.Within | src/main/java/com/example/whatsapp_crm/service/MessageService.java:111-114 | keeps every copy of each message with a non-null timestamp strictly after the start and before the end, and nothing else; the helper `InWindow` is the filter's condition |
| Service.WithinKeepsTies | src/main/java/com/example/whatsapp_crm/service/MessageService.java:111-114 | the filter keeps or drops all messages of one timestamp together, in their order |
| Controller.VerifyWebhook | src/main/java/com/example/whatsapp_crm/controller/MessageController.java:127-138 | 200 with the challenge exactly when the mode is "subscribe" and the token is the configured one; else 403 "Verification failed" |
| Controller.DefaultTokenVerifies | src/main/java/com/example/whatsapp_crm/controller/MessageController.java:49 | without the property, exactly the token "your_verify_token" verifies |
| Controller.MessageCalls | src/main/java/com/example/whatsapp_crm/controller/MessageController.java:158-167 | one call per message element, in order, each with the same contact |
| Controller.FirstContact | src/main/java/com/example/whatsapp_crm/controller/MessageController.java:160-163 | the contact passed is element 0 of a non-empty contacts list (possibly null), and null when the list is null or empty |
| Controller.ValueCalls | src/main/java/com/example/whatsapp_crm/controller/MessageController.java:157-167 | a value without a messages list makes no calls; otherwise one call per message element, in order, each with the first contact |
| Controller.ChangesWalk | src/main/java/com/example/whatsapp_crm/controller/MessageController.java:151-152 | the changes loop gets through exactly when no change element is null; the helper `ChangeWalk` models one change, where a null element throws |
| Controller.EntriesWalk | src/main/java/com/example/whatsapp_crm/controller/MessageController.java:148-152 | the entries loop gets through exactly when no entry element, and no change element of it, is null; the helper `EntryWalk` models one entry, where a null element throws |
| Controller.DeliveryWalk | src/main/java/com/example/whatsapp_crm/controller/MessageController.java:143-170 | the traversal gets through the whole delivery exactly when no entry element and no change element it walks is null; a null or empty entry list makes no calls |
| Controller.EachMessageWithFirstContact | src/main/java/com/example/whatsapp_crm/controller/MessageController.java:160-166 | each message of a value, null elements included, is passed with the value's first contact element, or null when the contacts list is null or empty |
| Controller.EmptyDeliveryMakesNoCalls | src/main/java/com/example/whatsapp_crm/controller/MessageController.java:144-146 | a null or empty entry list completes with no calls |
| Controller.NullLevelsMakeNoCalls | src/main/java/com/example/whatsapp_crm/controller/MessageController.java:149-157 | null `changes`, null `value` and null `messages` are skipped with no calls |
| Controller.MessageCallsEscape | src/main/java/com/example/whatsapp_crm/controller/MessageController.java:158-167 | once one message's call lets an exception escape, the later messages of the value are never processed |
| Controller.FieldNeverConsulted | src/main/java/com/example/whatsapp_crm/controller/MessageController.java:151-169 | whatever every change's `field` holds, a delivery makes the same calls |
| Controller.StripNonDigits | src/main/java/com/example/whatsapp_crm/controller/MessageController.java:206 | the recipient holds only ASCII digits and is no longer than the phone |
| Controller.StripAppend | src/main/java/com/example/whatsapp_crm/controller/MessageController.java:206 | stripping works piecewise, so the digits keep their order |
| Controller.StripKeepsDigits | src/main/java/com/example/whatsapp_crm/controller/MessageController.java:206 | every digit survives as often as it occurs, and nothing else does |
| Controller.StripDigitsUnchanged | src/main/java/com/example/whatsapp_crm/controller/MessageController.java:206 | a phone of digits only is sent as it is |
| Controller.StripIdempotent | src/main/java/com/example/whatsapp_crm/controller/MessageController.java:206 | stripping twice is stripping once |
| Controller.StripScenario | src/main/java/com/example/whatsapp_crm/controller/MessageController.java:206 | "+1 555 123 4567" is sent to "15551234567" |
| Controller.SortDirection | src/main/java/com/example/whatsapp_crm/controller/MessageController.java:60-62 | ascending exactly for "ASC" under `equalsIgnoreCase`, descending for anything else |
| Controller.IsAscKeyword | src/main/java/com/example/whatsapp_crm/controller/MessageController.java:60 | `equalsIgnoreCase("ASC")` holds exactly for its twelve spellings: each of A, S and C in either case, and U+017F for S |
| Controller.ParamOrDefault | src/main/java/com/example/whatsapp_crm/controller/MessageController.java:56-57 | a parameter is its given non-empty value, otherwise the default, so a non-empty default never yields an empty value |
| Controller.SortDirectionDefaults | src/main/java/com/example/whatsapp_crm/controller/MessageController.java:56-62 | a missing direction sorts descending; "asc" and "Asc" ascend; "ascending" descends |
| Controller.Outbound | src/main/java/com/example/whatsapp_crm/controller/MessageController.java:186-191 | the outbound row is `fromMe`, has no provider id, keeps the raw phone and the text, and carries the local time as both timestamp and creation time |
| Controller.OutboundNeverShadowsInbound | src/main/java/com/example/whatsapp_crm/controller/MessageController.java:186-192 | an outbound row never makes an inbound message with an id look like a duplicate |
| Controller.MessageController.GetAllMessages | src/main/java/com/example/whatsapp_crm/controller/MessageController.java:52-76 | a page request exactly when both page and size are given, with sort field defaulting to "timestamp" and the direction rule; else the whole table |
| Controller.MessageController.SearchMessages | src/main/java/com/example/whatsapp_crm/controller/MessageController.java:90-111 | a non-empty phone wins and returns that phone's messages; else, when both dates are present and parse, exactly `getMessagesByDateRange` of the two bounds, all inside the window; a bad request exactly otherwise |
| Controller.MessageController.SearchByDates | src/main/java/com/example/whatsapp_crm/controller/MessageController.java:100-110 | results exactly when both dates are present and parse, and then `getMessagesByDateRange` of the two bounds |
| Controller.MessageController.ReceiveWebhook | src/main/java/com/example/whatsapp_crm/controller/MessageController.java:141-179 | the tables end as `IngestAll` of the delivery's calls leaves them; always 200, with "OK" exactly when the traversal gets through and no exception escapes, else "Error processed" |
| Controller.MessageController.ReceiveChanges | src/main/java/com/example/whatsapp_crm/controller/MessageController.java:151-169 | the changes loop leaves the tables as its calls do, and reports completion exactly when it met no null change and no exception escaped |
| Controller.MessageController.ReceiveValue | src/main/java/com/example/whatsapp_crm/controller/MessageController.java:157-168 | the messages loop makes one call per message with the first contact, stops at an escaping exception, and reports it |
| Controller.MessageController.SendMessage | src/main/java/com/example/whatsapp_crm/controller/MessageController.java:182-223 | the outbound row (raw phone, body, `fromMe` true, local time) is saved first and stays; then the digits-only phone is posted; 200 only for a provider 200, error texts otherwise |

## Left out

- Spring wiring, HTTP routing, JSON (de)serialisation, CORS and response
  formatting are left out. A response is a status and a text body.
- The provider HTTP call is left out, because it is network I/O. Its
  outcome enters `SendMessage` as the `reply` parameter. The request body
  it would carry is recorded only as the recipient and the text.
- `SendMessage` does not model the JSON text block. The message text is put
  into the JSON body unescaped. A quote, backslash or line break in it makes
  the body invalid, and the provider may reject it. The model does not
  derive the provider's answer from the payload; that answer is the `reply`
  parameter.
- `Controller.MessageController.SendMessage` takes the text of the
  exception that `replaceAll` throws on a null phone as a parameter
  (`nullPhoneMessage`), because its wording is decided by the JVM.
- The clock is one `now` parameter per endpoint call. Every
  `processIncomingMessage` call of one delivery gets the same `now`, and so
  do the two clock reads within each call. The code reads the clock afresh
  each time, so later messages of a delivery may carry later times.
- `Timestamp.valueOf` for the search bounds is the `parseTimestamp`
  parameter of `SearchMessages`. Its date-time grammar, time zone and
  sub-millisecond precision are not modelled.
- `Controller.MessageController.GetAllMessages` returns the page request
  without computing the page. Spring Data's paging arithmetic,
  `PageRequest.of` rejecting a negative page or a size below one, and an
  unknown `sortBy` property are left out.
- `Repository.Store.FindByContactPhoneOrderByTimestampDesc` fixes an order
  the database leaves open. The database decides where null timestamps go
  and how equal timestamps are ordered; the model puts nulls last and keeps
  table order for ties.
- `findAll()` is taken to return the rows in insertion order. The
  ties-in-table-order promise of `GetMessagesByDateRange`, and the whole
  table listed by `GetAllMessages`, rest on that. The database does not
  promise any order.
- The only database constraint modelled is the contact phone's NOT NULL.
  The rest are not, for example the unique phone and any foreign key from
  a message's contact phone to a contact, so `SendMessage` always saves
  its row.
- Database-assigned ids are not modelled, and neither are column lengths.
- `getMessageById`, `getAllContacts` and `getContactByPhone` are left out.
  They are plain repository reads outside this core.
- `HomeController` is left out; it is not part of this core.
- Logging to standard error is left out.
- Concurrency between webhook deliveries is left out. Calls are taken one
  at a time.
- `JavaLong.ParseLong` accepts ASCII digits only. `Long.parseLong` also
  accepts other Unicode decimal digits.
