# Prompt transcriber of the vincent-ai Discord bot

vincent-ai is a Discord bot. When a message mentions it, the bot turns the recent
channel history into a chat prompt for a language model. This project models the part of
the `messageCreate` handler in `index.js` that decides whether to answer and builds that
prompt, and it proves properties of the model:

- **The guard** (index.js:51-54). The bot ignores its own messages, other bots, one
  hard-coded user, and messages that do not mention it.
- **The history window** (index.js:66-75). The last messages are fetched newest first. When
  the fetch throws, the history is a one-element Array that holds the new message.
- **The system entry** (index.js:77-98). A fixed instruction block is filled in with the
  model name, the bot's tag, the channel and guild, the current time, and the guild's
  custom emoji, which are listed with `JSON.stringify`.
- **The transcription loop** (index.js:100-148). The window is reversed and walked oldest
  first.
  - The bot's own messages become assistant entries.
  - Member-join notices become a fixed user entry.
  - Every other message becomes a user entry. Its header is a timestamp line, `[tag]`,
    optional markers, then `:` and the body. Each cached user's `<@id>` is then rewritten
    to `<@tag>`, and an attachment line is appended when the message has attachments.

Modules, one per file:

- `Text` (text.dfy): `replaceAll` with a string pattern, `join`, and the decimal rendering
  of a non-negative number.
- `Json` (json.dfy): `JSON.stringify` of an array of strings.
- `Chat` (chat.dfy): messages, users, guilds, the run's context, the history window and the
  prompt entries.
- `SystemPrompt` (system_prompt.dfy): the system entry.
- `Mentions` (mentions.dfy): mention rewriting.
- `Transcriber` (transcriber.dfy): one message to one entry, and the loop over the window.
- `Handler` (handler.dfy): the guard, the fallback window and one run of the handler.

The model follows the code as written. Three behaviours of the code are kept on purpose:

- **The reply marker** (index.js:125). `+` binds tighter than `||`, so the expression is
  `(" (replying to [" + id) || ("unknown" + "])")`. Its left operand is never empty, so the
  marker is ` (replying to [` followed by the referenced author's id, or by `undefined`
  when the referenced message is not in the window. The marker has no closing `])`, and
  `unknown` never appears. The comment at index.js:140 shows a closed bracket, which is
  evidently what the authors meant. The model keeps what the code does.
- **The timestamp line** (index.js:115). It carries the current time, not the time the
  message was sent.
- **JavaScript errors end the run.** These become `Err` results.
  - `NoMember`: a user message whose `member` is null (reading `displayName` throws).
  - `NotACollection`: a reply while the fallback Array is in use (an Array has no `get`).
  - `NoGuild`: a run without a guild, i.e. a direct message (reading `msg.guild.name`
    throws). This is checked before any message is walked.

Three more behaviours of the code:

- The self-author test comes before the join test, so the bot's own join notices are
  replayed as assistant turns.
- Mentions are rewritten once per cached user, in cache order. Each round rewrites the
  result of the previous rounds (`RewritesChain`).
- When the fetch throws, the one-element Array `[[null, msg]]` is walked (index.js:74).

## Model

| member | source | states |
|---|---|---|
| Handler.Screen | index.js:51-54 | The handler answers exactly when the author is not the bot, is not a bot, is not the blocked user, and the message mentions the bot. The self test comes first, and the bot test comes next. |
| Handler.Handle | index.js:50-148 | One run ends in one of four ways. It is ignored exactly when the guard refuses the message, with the guard's reason. It is silent exactly when `sendTyping` fails. Otherwise it requests a prompt exactly when the transcript of the chosen window exists, and that transcript is the prompt. When the transcript throws, the run crashes with the transcript's fault. |
| Handler.HistoryWindow | index.js:67-75 | Definition of the window a run walks: the fetched messages, or the one-element Array holding the new message when the fetch throws. Its properties are proved by FallbackHistory. |
| Handler.FallbackHistory | index.js:66-75 | When the fetch throws, the history is built exactly when the new message is a join notice, or has a member and is not a reply. It is then a single user entry. A reply with a member fails with `NotACollection`. |
| SystemPrompt.Preamble | index.js:80-96 | Definition of the instruction block up to the emoji list, filled in with the model, the bot's tag, the channel, the guild and the time. It opens SystemText, whose properties are proved by EmojisListed and SystemEntry. |
| SystemPrompt.SystemText | index.js:80-96 | Definition of the system text: the preamble, the `JSON.stringify` of the emoji tokens and a closing full stop. Its properties are proved by EmojisListed. |
| SystemPrompt.SystemEntry | index.js:77-98 | A system entry exists exactly when the run has a guild, and its role is `system`. A direct message fails with `NoGuild`. |
| SystemPrompt.EmojiTokens | index.js:96 | One `<:name:id>` token per guild emoji, in cache order. |
| SystemPrompt.EmojisListed | index.js:96 | Every guild emoji whose name and id need no escaping appears in the system text as its quoted `<:name:id>` token. |
| Json.EscapeChar | index.js:96 | A character needing no escape is copied as it is. Any other character becomes a backslash escape of at least two characters. |
| Json.Escape | index.js:96 | A string needing no escape is its own JSON body, and escaping never shortens a string. |
| Json.QuoteAll | index.js:96 | One quoted literal per item, in order. |
| Json.StringArray | index.js:96 | Definition of `JSON.stringify` on an array of strings: the quoted items joined by commas, in brackets. Its properties are proved by QuoteAll and StringArrayLists. |
| Json.StringArrayLists | index.js:96 | Every item of the array appears, quoted, in its `JSON.stringify` text. |
| Text.JoinWithLists | index.js:96 | Every joined item occurs in the joined text. |
| Text.ReplaceAllAbsent | index.js:130 | `replaceAll` leaves text that does not contain the pattern unchanged. |
| Text.ReplaceAllSkip | index.js:130 | A prefix without the pattern's first character is copied, and the scan resumes after it. |
| Text.ReplaceAll | index.js:130 | Definition of `replaceAll` with a non-empty string pattern: a left-to-right scan that replaces non-overlapping occurrences and never rescans a replacement. Its properties are proved by ReplaceAllAbsent, ReplaceAllSkip, ReplaceAllNext and ReplaceAllEvery. |
| Text.ReplaceAllNext | index.js:130 | Text free of the pattern, followed by an occurrence, is copied, and then the occurrence is replaced. This holds when the pattern's first character does not recur in it, so no occurrence straddles the two. |
| Text.ReplaceAllEvery | index.js:130 | Every occurrence is replaced when the pattern's first character does not recur in it, as the `<` of a mention token does not. Pieces that hold no occurrence, joined by the pattern, then become the same pieces joined by the replacement. |
| Text.AbsentWithoutHead | index.js:130 | Text lacking the pattern's first character lacks the pattern. |
| Text.OccursWithin | index.js:96 | An occurrence in a part is an occurrence in the whole. |
| Text.Decimal | index.js:82 | The rendering of a number (the UNIX time here, the attachment count at index.js:135) is a non-empty digit string with no leading zero (except for zero itself). |
| Text.DecimalRoundTrip | index.js:135 | Reading back the rendering of `n` gives `n`. |
| Mentions.MentionToken | index.js:130 | A mention token starts with `<@`. |
| Mentions.Substituted | index.js:130 | Definition of the rewrite rounds: one `replaceAll` of `<@id>` by `<@tag>` per cached user, in cache order, each applied to the result of the rounds before it. Its properties are proved by SubstitutedNoTokens, SubstitutedPlainText, SubstitutedSkip, EveryMentionRewritten and RewritesChain, and SubstituteMentions computes it. |
| Mentions.SubstituteMentions | index.js:130 | The `forEach` over the user cache computes the rounds of rewriting, in cache order. |
| Mentions.SubstitutedNoTokens | index.js:130 | Text containing no cached user's `<@id>` is left unchanged. |
| Mentions.SubstitutedPlainText | index.js:130 | Text without `<@` is never rewritten, whatever the cache holds. |
| Mentions.SubstitutedSkip | index.js:130 | A leading stretch without `<` survives every round unchanged. |
| Mentions.EveryMentionRewritten | index.js:130 | Every `<@id>` of a cached user becomes `<@tag>`, and the text around the tokens is kept, including other users' mentions, emoji and channel links. |
| Mentions.RewritesChain | index.js:130 | The rounds compose. If one user's tag is another cached user's id, a mention of the first ends as a mention of the second user's tag. |
| Transcriber.FindAuthor | index.js:125 | The lookup finds nothing exactly when no message of the window has that id. A found author belongs to a message with that id. |
| Transcriber.ReplyTarget | index.js:125 | The lookup throws exactly on the fallback Array. On a fetched window, the target is `undefined` when no message has the referenced id, and otherwise the author id of a message with that id. |
| Transcriber.ReplyMarker | index.js:125 | Definition of the marker as the precedence of `+` over `\|\|` makes it: ` (replying to [` and the target, unclosed. Its properties are proved by ReplyMarkerNeverCloses. |
| Transcriber.ReplyMarkerNeverCloses | index.js:125 | When author ids are snowflakes (all digits), the target is all digits or `undefined`, never `unknown`. The marker never ends in `])`. |
| Transcriber.Markers | index.js:119-125 | Definition of the optional markers after `[tag]`: name, `(BOT)`, `(edited)`, reply, in that order. Its properties are proved by NoMarkers. |
| Transcriber.RawContent | index.js:115-128 | Definition of the content before rewriting: timestamp line, `[tag]`, markers, `:`, newline and body. Its properties are proved by StampKept and PlainMessage. |
| Transcriber.UserContent | index.js:108-137 | Definition of a user entry's content: the raw content with mentions rewritten, then the attachment line. Its properties are proved by StampKept, AttachmentLine and PlainMessage, and BuildUserContent computes it. |
| Transcriber.BuildUserContent | index.js:108-137 | The `content +=` sequence, with the rewrite and the attachment line, builds the user content. A null member fails with `NoMember`, and a reply on the fallback Array fails with `NotACollection`. |
| Transcriber.EntryFor | index.js:105-147 | The bot's own message is replayed verbatim as the assistant. A join notice from anyone else is exactly `<@id> joined the server.` as a user entry. No message yields a system entry, and the assistant role comes exactly from the bot's messages. A message fails exactly when it is neither, and its member is null or it is a reply on the fallback Array. |
| Transcriber.TranscribeMessage | index.js:102-147 | One pass of the loop body yields the message's entry, or its fault. |
| Transcriber.NoMarkers | index.js:119-125 | No marker is written exactly when the display name is empty and the author is not a bot, the message is not edited, and it is not a reply. |
| Transcriber.StampKept | index.js:115-117 | A timestamp line and tag without `<` lead the final content untouched by rewriting. |
| Transcriber.AttachmentSuffix | index.js:133-136 | Definition of the attachment line: a blank line, the count, ` attachment(s): ` and the serialised attachments, only when the count is positive. Its properties are proved by AttachmentLine. |
| Transcriber.AttachmentLine | index.js:130-136 | With attachments, the content ends with the attachment line exactly as serialised, and its count reads back as the number of attachments. Without attachments, the content is the rewritten header and body alone. |
| Transcriber.PlainMessage | index.js:115-128 | A message with no marker, no attachment and no `<` becomes the timestamp line, `[tag]:` and the body, whatever the user cache holds. |
| Transcriber.Walk | index.js:102-147 | Definition of the for-of loop over messages in a given order: one entry per message, stopping at the first message that throws. Its properties are proved by WalkExtend, WalkAbort, WalkShape and WalkFails. |
| Transcriber.WalkExtend | index.js:102-147 | One more message extends the walk by that message's entry, or ends it with its fault. |
| Transcriber.WalkAbort | index.js:102-147 | After the first message that throws, the rest of the window does not change the outcome. |
| Transcriber.Reverse | index.js:100 | Definition of `reverse()`: the element at position `k` is the one at `n - 1 - k`. Its properties are proved by WalkReversed and WalkReversedFails. |
| Transcriber.History | index.js:100-148 | Definition of the entries pushed after the system entry: the window walked oldest first. Its properties are proved by HistoryShape and HistoryFails, and PushHistory computes it. |
| Transcriber.Transcript | index.js:77-148 | Definition of the prompt: the system entry, then the history. Its properties are proved by TranscriptShape and TranscriptFails, and Transcribe computes it. |
| Transcriber.PushHistory | index.js:100-148 | The loop appends exactly the history to the messages it starts with, or fails with the first message's fault. |
| Transcriber.Transcribe | index.js:77-148 | The system entry, then the loop, computes the transcript. |
| Transcriber.WalkShape | index.js:102-147 | A completed walk has one entry per message, in walk order. |
| Transcriber.WalkReversed | index.js:100-103 | Walking the reversed window maps the message at position `j` to entry `n - 1 - j`. |
| Transcriber.WalkFails | index.js:102-147 | A walk fails exactly when one of its messages fails. |
| Transcriber.WalkReversedFails | index.js:100-147 | Walking the reversed window fails exactly when one of its messages fails. |
| Transcriber.HistoryShape | index.js:100-148 | The history has one entry per window message, oldest first, and none of them is a system entry. |
| Transcriber.HistoryFails | index.js:100-148 | The history fails exactly when some message of the window throws. |
| Transcriber.PromptShape | index.js:77-148 | A system entry followed by the history, the list the loop ends with, has one entry more than the window, and its first entry is the only system entry. |
| Transcriber.TranscriptShape | index.js:77-148 | The prompt of a run has one entry more than the window holds, and its first entry is the only system entry. |
| Transcriber.TranscriptFails | index.js:77-148 | No prompt is built exactly when the guild is missing or some message of the window throws. |
| Transcriber.HumanThenBot | index.js:100-112 | A window holding a human message and then the bot's reply, fetched newest first, becomes the user entry and then the assistant entry. |

## Left out

- `groq()` (index.js:31-48): an HTTP POST to a remote service. `Handle` ends at the prompt it would send.
- The retry loop over the model's answer (index.js:153-167): its termination depends on the
  remote service alone.
- The typing timer (index.js:57-63, 169): timers are left out. `sendTyping` appears only as
  the boolean `typingOk`.
- The reply and its fallback to a plain send (index.js:171-179): network I/O.
- Client construction, intents, environment checks and login (index.js:1-28, 181-187):
  process set-up.
- The clock. `Date`, `toISOString` and `getTime` are inputs (`isoTime`, `epochMillis`).
  - The source reads the clock again for every message. The model uses one reading for the
    whole run.
  - The two readings in the system text are independent inputs.
- `JSON.stringify` of attachment objects. The serialisation is the input `attachmentsJson`.
  `JSON.stringify` is modelled only for the emoji list of the system text.
- The fetch limit of 100 messages. The window is any sequence the platform returns.
- `Collection.get` is modelled as the first message with the given id. The ids of a
  Collection are unique keys.
- Replacement patterns. `replaceAll` interprets `$&`, `$$` and similar in the replacement
  string. The model copies a tag verbatim, which is exact for tags without `$`.
- `Text.ReplaceAll` requires a non-empty pattern. The source's pattern `<@id>` is never empty.
