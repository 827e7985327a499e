/** The webhook delivery the provider posts, as the JSON binding declares it:
    every object field and every list element may be null. Unknown JSON
    properties are ignored by the binding and so do not appear here. */
module WebhookRequest {
  import opened Nullable

  datatype Profile = Profile(name: Option<string>)

  /** One element of `value.contacts`. */
  datatype ContactData = ContactData(profile: Option<Profile>, waId: Option<string>)

  datatype Text = Text(body: Option<string>)

  datatype Image = Image(caption: Option<string>, mimeType: Option<string>, id: Option<string>)

  datatype Document = Document(
    caption: Option<string>,
    filename: Option<string>,
    mimeType: Option<string>,
    id: Option<string>)

  /** One element of `value.messages`; `messageType` is the JSON `type`. */
  datatype MessageData = MessageData(
    from: Option<string>,
    id: Option<string>,
    timestamp: Option<string>,
    messageType: Option<string>,
    text: Option<Text>,
    image: Option<Image>,
    document: Option<Document>)

  datatype Metadata = Metadata(displayPhoneNumber: Option<string>, phoneNumberId: Option<string>)

  datatype Status = Status(
    id: Option<string>,
    status: Option<string>,
    timestamp: Option<string>,
    recipientId: Option<string>)

  datatype Value = Value(
    messagingProduct: Option<string>,
    metadata: Option<Metadata>,
    statuses: Option<seq<Option<Status>>>,
    messages: Option<seq<Option<MessageData>>>,
    contacts: Option<seq<Option<ContactData>>>)

  datatype Change = Change(value: Option<Value>, field: Option<string>)

  datatype Entry = Entry(id: Option<string>, changes: Option<seq<Option<Change>>>)

  /** The whole delivery; `objectKind` is the JSON `object`. */
  datatype Request = Request(objectKind: Option<string>, entry: Option<seq<Option<Entry>>>)
}
