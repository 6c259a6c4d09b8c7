/** The chat platform's entities as this core sees them. Only the fields the
    core reads are kept; every pointer in the source becomes a value here. */
module Gateway {

  datatype User = User(id: string, username: string, bot: bool)

  /** A guild member: the user and the member's server nickname ("" when unset). */
  datatype Member = Member(user: User, nick: string)

  datatype Role = Role(id: string, name: string)

  /** Go's zero value of a role, returned beside an error. */
  const ZeroRole := Role("", "")

  datatype PermissionOverwrite = PermissionOverwrite(id: string, kind: string, allow: int, deny: int)

  const ZeroOverwrite := PermissionOverwrite("", "", 0, 0)

  /** A channel; kind 0 is a plain guild text channel. */
  datatype Channel = Channel(id: string, guildId: string, kind: int)

  datatype Embed = Embed(url: string)

  datatype Attachment = Attachment(url: string)

  /** A message of a channel's history. */
  datatype HistoryMessage = HistoryMessage(embeds: seq<Embed>, attachments: seq<Attachment>)

  /** An inbound message-create event. */
  datatype Message = Message(id: string, channelId: string, content: string, mentions: seq<User>, author: User)
}
