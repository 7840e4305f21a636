/** The platform objects the `messageCreate` handler reads, reduced to the
    fields it uses, and the prompt entries it builds. */
module Chat {

  datatype Option<T> = None | Some(value: T)

  /** The JavaScript errors that end one run of the handler before any request
      is made. The handler is async and nothing catches them: its promise is
      rejected, no reply is sent and the typing timer is never cleared. */
  datatype Fault =
    | NoMember        // `message.member` is null: reading `.displayName` throws
    | NotACollection  // `channelMessages` is the fallback Array, which has no `.get`
    | NoGuild         // `msg.guild` is null (a direct message): reading `.name` throws

  datatype Result<T> = Ok(value: T) | Err(fault: Fault)

  /** Message types the transcriber tests for. */
  const MemberJoinType := 7
  const ReplyType := 19

  /** The guild member behind a message. */
  datatype Member = Member(displayName: string)

  /** A chat message: its snowflake `id`, its author (`author.id`,
      `author.tag`, `author.bot`), `member`, whether `editedTimestamp` is set,
      its numeric `type`, `reference.messageId`, the body `content`, the ids of
      the users it mentions, and `attachments` (their count and their JSON
      serialisation, taken as given). */
  datatype Message = Message(
    id: string,
    authorId: string,
    authorTag: string,
    authorIsBot: bool,
    member: Option<Member>,
    edited: bool,
    kind: int,
    referenceId: string,
    content: string,
    mentions: set<string>,
    attachmentCount: nat,
    attachmentsJson: string)

  /** An entry of `client.users.cache`. */
  datatype CachedUser = CachedUser(id: string, tag: string)

  datatype Emoji = Emoji(name: string, id: string)

  datatype Guild = Guild(name: string, emojis: seq<Emoji>)

  /** What one run of the handler reads besides the messages: the `MODEL`
      environment value, the bot's own user, the channel, the guild (absent in
      a direct message), the user cache in its iteration order, and the clock
      (as an ISO-8601 string and as milliseconds since the epoch). */
  datatype Context = Context(
    model: string,
    botId: string,
    botTag: string,
    channelName: string,
    channelId: string,
    guild: Option<Guild>,
    users: seq<CachedUser>,
    isoTime: string,
    epochMillis: nat)

  /** The history the transcriber walks: the fetched Collection, newest
      message first, or the one-element Array the handler falls back to. */
  datatype Window = Fetched(messages: seq<Message>) | Fallback(trigger: Message)

  /** The messages of a window in the order the platform holds them. */
  function Items(w: Window): seq<Message> {
    match w
    case Fetched(ms) => ms
    case Fallback(m) => [m]
  }

  datatype Role = System | User | Assistant

  datatype Entry = Entry(role: Role, content: string)
}
