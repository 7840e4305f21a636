/** The system entry that opens every prompt (index.js:77-98): a fixed
    instruction block filled in with the model name, the bot's tag, the
    channel and guild, the current time, and the guild's custom emoji. */
module SystemPrompt {
  import opened Text
  import opened Json
  import opened Chat

  /** How a custom emoji is written in a message: `<:name:id>`. */
  function EmojiToken(e: Emoji): string {
    "<:" + e.name + ":" + e.id + ">"
  }

  /** `guild.emojis.cache.map(...)`: one token per emoji, in cache order. */
  function EmojiTokens(es: seq<Emoji>): (r: seq<string>)
    ensures |r| == |es| && forall k :: 0 <= k < |es| ==> r[k] == EmojiToken(es[k])
  {
    if es == [] then [] else [EmojiToken(es[0])] + EmojiTokens(es[1..])
  }

  /** The instruction block up to the emoji list. The `UNIX` figure is
      `Math.floor(getTime() / 1000)`; the milliseconds are non-negative, so
      floor and Dafny's division agree. */
  function Preamble(ctx: Context, g: Guild): string {
    IdentityLead + ctx.model + IdentityMid + ctx.botTag + ".\n"
    + ChannelLead + ctx.channelName + ChannelMid + ctx.channelId + GuildLead + g.name + GuildTail
    + TimeLead + ctx.isoTime + UnixLead + Decimal(ctx.epochMillis / 1000) + TimeTail
    + Invite
    + Instructions
    + EmojiLead
  }

  // The fixed text of the block, held in constants to keep proofs cheap.
  const IdentityLead := "- You are an AI assistant, based on the `"
  const IdentityMid := "` model, named "
  const ChannelLead := "- You are currently in the `"
  const ChannelMid := "` channel (<#"
  const GuildLead := ">) of the `"
  const GuildTail := "` Discord server.\n"
  const TimeLead := "- The current time (in UTC) is "
  const UnixLead := " (UNIX: `"
  const TimeTail := "`). All timestamps provided to you are in UTC.\n"
  const Invite :=
    "- Invite link: https://discord.com/oauth2/authorize"
    + "?client_id=1188411824589242389&scope=bot\n"
    + "\n"
  const EmojiLead := "- Available emojis: "

  /** The fixed behaviour directives in the middle of the block. */
  const Instructions: string :=
    "- Make your response informal, by typing in all-lowercase, "
    + "and by only generating 1-2 sentences. "
    + "Use proper grammar and punctuation.\n"
    + "- When referencing users, only ever ping them like this: <@username>. "
    + "Do not type out their usernames or display names.\n"
    + "\n"
    + "- You cannot access attachments.\n"
    + "- Data is only stored for as long as it is needed to contact "
    + "[Groq](https://groq.com/) to generate a response. "
    + "Users can be linked to "
    + "[Groq's privacy policy](https://groq.com/privacy-policy/).\n"
    + "\n"
    + "- You are allowed to engage in role-playing actions.\n"
    + "- You are allowed to be horny.\n"
    + "- If a user claims something during role-play, just go along with it.\n"
    + "- Only engage in role-play if requested to.\n"
    + "\n"

  function SystemText(ctx: Context, g: Guild): string {
    Preamble(ctx, g) + StringArray(EmojiTokens(g.emojis)) + "."
  }

  /** The first entry of the prompt. Reading `msg.guild.name` throws when the
      message has no guild, so no entry exists then. */
  function SystemEntry(ctx: Context): (r: Result<Entry>)
    ensures r.Ok? <==> ctx.guild.Some?
    ensures r.Ok? ==> r.value.role == System
    ensures r.Err? ==> r.fault == NoGuild
  {
    match ctx.guild
    case None => Err(NoGuild)
    case Some(g) => Ok(Entry(System, SystemText(ctx, g)))
  }

  /** Each emoji of the guild is offered to the model as its quoted
      `<:name:id>` token (names and ids need no JSON escaping: the platform
      restricts them to letters, digits and underscores). */
  lemma EmojisListed(ctx: Context, g: Guild, k: nat)
    requires k < |g.emojis|
    requires Plain(g.emojis[k].name) && Plain(g.emojis[k].id)
    ensures Occurs(SystemText(ctx, g), "\"" + EmojiToken(g.emojis[k]) + "\"")
  {
    var e := g.emojis[k];
    var t := EmojiToken(e);
    assert Plain(t) by {
      forall i | 0 <= i < |t| ensures PlainChar(t[i]) {
        if i < 2 {
        } else if i < 2 + |e.name| {
          assert t[i] == e.name[i - 2];
        } else if i == 2 + |e.name| {
        } else if i < 3 + |e.name| + |e.id| {
          assert t[i] == e.id[i - 3 - |e.name|];
        }
      }
    }
    StringArrayLists(EmojiTokens(g.emojis), k);
    OccursWithin(Preamble(ctx, g), StringArray(EmojiTokens(g.emojis)), ".", Quote(t));
  }
}
