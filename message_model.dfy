/** The message record of models/messageModel.js: its fields, its status enum
    and the defaults and required-field checks the schema applies when a
    document is created. */
module MessageModel {
  import opened Common

  /** The schema's `status` enum: exactly these three values. */
  datatype Status = Sent | Delivered | Read

  /** A stored message. `deliveredAt` and `readAt` are optional dates. */
  datatype Message = Message(
    sender: UserId,
    receiver: UserId,
    text: string,
    timestamp: Time,
    status: Status,
    deliveredAt: Option<Time>,
    readAt: Option<Time>)

  /** The string the database stores for a status. */
  function StatusName(s: Status): string
  {
    match s
    case Sent => "Sent"
    case Delivered => "Delivered"
    case Read => "Read"
  }

  /** The schema's enum validation: a stored string is accepted exactly when it
      names one of the three statuses. */
  function ParseStatus(name: string): (r: Option<Status>)
    ensures r.Some? <==> name in ["Sent", "Delivered", "Read"]
    ensures r.Some? ==> StatusName(r.value) == name
  {
    if name == "Sent" then Some(Sent)
    else if name == "Delivered" then Some(Delivered)
    else if name == "Read" then Some(Read)
    else None
  }

  /** Every status survives the trip to its stored string and back. */
  lemma StatusRoundTrip(s: Status)
    ensures ParseStatus(StatusName(s)) == Some(s)
  {
  }

  /** The fields a caller passes to `new Message({...})`; any of them may be
      left out. */
  datatype Draft = Draft(
    sender: Option<UserId>,
    receiver: Option<UserId>,
    text: Option<string>,
    timestamp: Option<Time>,
    status: Option<Status>,
    deliveredAt: Option<Time>,
    readAt: Option<Time>)

  /** Why saving a document fails: one of its required paths is missing. */
  datatype ValidationError = SenderRequired | ReceiverRequired | TextRequired

  datatype Created = Ok(message: Message) | Invalid(error: ValidationError)

  /** Mongoose's `required` check: an id path must be present, a string path
      must be present and non-empty. */
  predicate HasRequired(d: Draft)
  {
    d.sender.Some? && d.receiver.Some? && d.text.Some? && d.text.value != ""
  }

  /** Validating and defaulting a draft as the schema does on save:
      a given field is stored as given; `timestamp` defaults to the creation
      time, `status` to `Sent`, and the two optional dates stay unset. */
  function Create(d: Draft, now: Time): (r: Created)
    ensures r.Ok? <==> HasRequired(d)
    ensures r.Ok? ==>
      && r.message.sender == d.sender.value
      && r.message.receiver == d.receiver.value
      && r.message.text == d.text.value
      && r.message.text != ""
    ensures r.Ok? ==>
      && r.message.timestamp == (if d.timestamp.Some? then d.timestamp.value else now)
      && r.message.status == (if d.status.Some? then d.status.value else Sent)
      && r.message.deliveredAt == d.deliveredAt
      && r.message.readAt == d.readAt
  {
    if d.sender.None? then Invalid(SenderRequired)
    else if d.receiver.None? then Invalid(ReceiverRequired)
    else if d.text.None? || d.text.value == "" then Invalid(TextRequired)
    else
      Ok(Message(
        d.sender.value, d.receiver.value, d.text.value,
        if d.timestamp.Some? then d.timestamp.value else now,
        if d.status.Some? then d.status.value else Sent,
        d.deliveredAt, d.readAt))
  }

  /** The consistency the chat handlers keep between a message's status and its
      two dates: `Delivered` has a delivery date, `Sent` has none, and a read
      date is present exactly when the status is `Read`. A `Read` message may
      lack a delivery date, since a `Sent` message can be read directly. */
  predicate WellFormed(m: Message)
  {
    && m.text != ""
    && (m.status == Delivered ==> m.deliveredAt.Some?)
    && (m.status == Sent ==> m.deliveredAt.None?)
    && (m.readAt.Some? <==> m.status == Read)
  }

  /** Position of a status along Sent -> Delivered -> Read. */
  function Rank(s: Status): (n: nat)
    ensures n <= 2
    ensures n == 0 <==> s == Sent
    ensures n == 2 <==> s == Read
  {
    match s
    case Sent => 0
    case Delivered => 1
    case Read => 2
  }

  /** `later` is `earlier` after zero or more lifecycle steps: the same
      sender, receiver, text and timestamp, a status no further back, and
      neither date overwritten once set. */
  predicate Advances(earlier: Message, later: Message)
  {
    && later.sender == earlier.sender
    && later.receiver == earlier.receiver
    && later.text == earlier.text
    && later.timestamp == earlier.timestamp
    && Rank(earlier.status) <= Rank(later.status)
    && (earlier.deliveredAt.Some? ==> later.deliveredAt == earlier.deliveredAt)
    && (earlier.readAt.Some? ==> later.readAt == earlier.readAt)
  }

  /** Lifecycle steps compose. */
  lemma AdvancesTransitive(a: Message, b: Message, c: Message)
    requires Advances(a, b) && Advances(b, c)
    ensures Advances(a, c)
  {
  }
}
