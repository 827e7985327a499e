/** The two persisted records. Timestamps are milliseconds since the epoch. */
module Entities {
  import opened Nullable

  /** A row of the message table (the store-assigned surrogate id is not modelled). */
  datatype Message = Message(
    whatsappMessageId: Option<string>,
    contactPhone: Option<string>,
    body: Option<string>,
    fromMe: bool,
    timestamp: Option<int>,
    createdAt: int)

  /** A row of the contact table; `phone` is NOT NULL and unique. */
  datatype Contact = Contact(phone: string, name: Option<string>, createdAt: int)
}
