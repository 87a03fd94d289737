/**
 * The rows of the two tables, field for field: `users` and `messages`.
 * Timestamps are readings of the store's logical clock.
 */
module Schema {
  import opened Wrappers

  /** A row of `users`; `telegramId` is the decimal rendering of the Telegram user id and is unique. */
  datatype User = User(id: nat, telegramId: string, username: Option<string>, isVip: bool, createdAt: nat)

  /** What `createUser` is given: a row without its serial id and timestamp. */
  datatype NewUser = NewUser(telegramId: string, username: Option<string>, isVip: bool)

  /** The `role` column: who wrote the turn. */
  datatype Role = UserRole | AssistantRole

  /** The `type` column. */
  datatype Kind = TextKind | ImageKind | VoiceKind

  /** A row of `messages`; `userId` refers to `users.id`. */
  datatype Message = Message(id: nat, userId: nat, role: Role, content: string, kind: Kind, createdAt: nat)

  /** What `createMessage` is given: a row without its serial id and timestamp. */
  datatype NewMessage = NewMessage(userId: nat, role: Role, content: string, kind: Kind)

  /** The columns of a stored message that its writer supplied. */
  function Supplied(m: Message): NewMessage
  {
    NewMessage(m.userId, m.role, m.content, m.kind)
  }

  /** The supplied columns of each row, in order. */
  function SuppliedRows(messages: seq<Message>): (r: seq<NewMessage>)
    ensures |r| == |messages|
    ensures forall k :: 0 <= k < |r| ==> r[k] == Supplied(messages[k])
  {
    if messages == [] then [] else [Supplied(messages[0])] + SuppliedRows(messages[1..])
  }
}
