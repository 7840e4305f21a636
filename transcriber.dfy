/** The prompt transcriber of the `messageCreate` handler (index.js:77-148):
    one system entry, then one entry per message of the history window,
    oldest first. */
module Transcriber {
  import opened Text
  import opened Chat
  import opened SystemPrompt
  import opened Mentions

  // ---------------------------------------------------------------------
  // Walk order

  /** `channelMessages.reverse()`: the fetch gives the newest message first,
      the walk starts with the oldest. */
  function Reverse<T>(s: seq<T>): (r: seq<T>)
    ensures |r| == |s|
  {
    seq(|s|, k requires 0 <= k < |s| => s[|s| - 1 - k])
  }

  // ---------------------------------------------------------------------
  // One message

  /** The bot's own message, replayed as the assistant's turn. */
  function AssistantEntry(m: Message): Entry {
    Entry(Assistant, m.content)
  }

  /** The fixed text that stands for a member-join notice. */
  function JoinEntry(m: Message): Entry {
    Entry(User, "<@" + m.authorId + "> joined the server.")
  }

  /** `channelMessages.get(id)?.author?.id`: the author of the window's message
      with that id, if the window holds one. */
  function FindAuthor(ms: seq<Message>, id: string): (r: Option<string>)
    ensures r.None? <==> forall k :: 0 <= k < |ms| ==> ms[k].id != id
    ensures r.Some? ==> exists k :: 0 <= k < |ms| && ms[k].id == id && ms[k].authorId == r.value
  {
    if ms == [] then None
    else if ms[0].id == id then Some(ms[0].authorId)
    else FindAuthor(ms[1..], id)
  }

  /** The text that follows `[` in a reply marker: the referenced author's
      id, or `"undefined"` when the window does not hold the referenced
      message (concatenating `undefined` to a string). The fallback Array has
      no `get` method, so the lookup throws there. */
  function ReplyTarget(w: Window, id: string): (r: Result<string>)
    ensures r.Err? <==> w.Fallback?
    ensures w.Fetched? && (forall k :: 0 <= k < |w.messages| ==> w.messages[k].id != id) ==>
              r == Ok("undefined")
    ensures w.Fetched? && (exists k :: 0 <= k < |w.messages| && w.messages[k].id == id) ==>
              exists k :: 0 <= k < |w.messages| && w.messages[k].id == id && r == Ok(w.messages[k].authorId)
  {
    match w
    case Fallback(_) => Err(NotACollection)
    case Fetched(ms) =>
      match FindAuthor(ms, id)
      case Some(a) => Ok(a)
      case None => Ok("undefined")
  }

  /** The reply marker as the source computes it. `+` binds tighter than
      `||`, so the expression is `(" (replying to [" + id) || ("unknown" +
      "])")`; its left operand is a non-empty string, hence always chosen:
      the marker has no closing `])` and `"unknown"` never appears. */
  function ReplyMarker(target: string): string {
    " (replying to [" + target
  }

  /** The optional markers after `[tag]`, in their fixed order. */
  function Markers(m: Message, member: Member, target: string): string {
    NameMarker(member) + BotMarker(m) + EditedMarker(m) + ReplyMarkerIf(m, target)
  }

  /** ` (displayName)` when the display name is truthy (non-empty). */
  function NameMarker(member: Member): string {
    if member.displayName != "" then " (" + member.displayName + ")" else ""
  }

  function BotMarker(m: Message): string {
    if m.authorIsBot then " (BOT)" else ""
  }

  function EditedMarker(m: Message): string {
    if m.edited then " (edited)" else ""
  }

  function ReplyMarkerIf(m: Message, target: string): string {
    if m.kind == ReplyType then ReplyMarker(target) else ""
  }

  /** The text of a user entry before mention rewriting. The timestamp line
      carries the current time, not the message's own. */
  function RawContent(m: Message, member: Member, target: string, now: string): string {
    Stamp(m, now) + Markers(m, member, target) + ":\n" + m.content
  }

  /** The timestamp line and the author's tag in brackets. */
  function Stamp(m: Message, now: string): string {
    now + "\n" + "[" + m.authorTag + "]"
  }

  /** The attachment line, appended after mention rewriting. */
  function AttachmentSuffix(m: Message): string {
    if m.attachmentCount > 0 then
      "\n\n" + (Decimal(m.attachmentCount) + " attachment(s): " + m.attachmentsJson)
    else ""
  }

  /** The reply target a message needs: none unless it is a reply. */
  function TargetOf(m: Message, w: Window): Result<string> {
    if m.kind == ReplyType then ReplyTarget(w, m.referenceId) else Ok("")
  }

  /** The content of the user entry for a message that is neither the bot's
      own nor a join notice. */
  function UserContent(m: Message, ctx: Context, w: Window): Result<string> {
    match m.member
    case None => Err(NoMember)
    case Some(member) =>
      match TargetOf(m, w)
      case Err(f) => Err(f)
      case Ok(t) =>
        Ok(Substituted(RawContent(m, member, t, ctx.isoTime), ctx.users) + AttachmentSuffix(m))
  }

  /** Appending four pieces one at a time appends their concatenation. */
  lemma Regroup(a: string, b: string, c: string, d: string, e: string)
    ensures a + b + c + d + e == a + (b + c + d + e)
  {
    assert a + b + c + d + e == a + (b + c + d) + e;
  }

  /** The `content += ...` sequence of index.js:108-137. */
  method BuildUserContent(message: Message, ctx: Context, w: Window) returns (r: Result<string>)
    ensures r == UserContent(message, ctx, w)
  {
    var content := "";
    content := content + (ctx.isoTime + "\n");
    content := content + ("[" + message.authorTag + "]");
    if message.member.None? {
      return Err(NoMember);
    }
    var member := message.member.value;
    ghost var head := content;
    assert head == Stamp(message, ctx.isoTime);
    if member.displayName != "" {
      content := content + (" (" + member.displayName + ")");
    }
    assert content == head + NameMarker(member);
    if message.authorIsBot {
      content := content + " (BOT)";
    }
    assert content == head + NameMarker(member) + BotMarker(message);
    if message.edited {
      content := content + " (edited)";
    }
    ghost var flagged := content;
    assert flagged == head + NameMarker(member) + BotMarker(message) + EditedMarker(message);
    var target := "";
    if message.kind == ReplyType {
      var lookup := ReplyTarget(w, message.referenceId);
      if lookup.Err? {
        return Err(lookup.fault);
      }
      target := lookup.value;
      content := content + ReplyMarker(target);
    }
    assert content == flagged + ReplyMarkerIf(message, target);
    assert TargetOf(message, w) == Ok(target);
    Regroup(head, NameMarker(member), BotMarker(message), EditedMarker(message), ReplyMarkerIf(message, target));
    content := content + ":\n";
    content := content + message.content;
    ghost var raw := content;
    assert raw == RawContent(message, member, target, ctx.isoTime);
    content := SubstituteMentions(content, ctx.users);
    ghost var rewritten := content;
    if message.attachmentCount > 0 {
      content := content + "\n\n";
      content := content + (Decimal(message.attachmentCount) + " attachment(s): " + message.attachmentsJson);
    }
    assert content == rewritten + AttachmentSuffix(message);
    return Ok(content);
  }

  /** The entry one message of the window becomes. The author test comes
      first, so the bot's own messages are replayed whatever their type. */
  function EntryFor(m: Message, ctx: Context, w: Window): (r: Result<Entry>)
    ensures m.authorId == ctx.botId ==> r == Ok(Entry(Assistant, m.content))
    ensures m.authorId != ctx.botId && m.kind == MemberJoinType ==>
              r == Ok(Entry(User, "<@" + m.authorId + "> joined the server."))
    ensures r.Ok? ==> r.value.role != System
    ensures r.Ok? ==> (r.value.role == Assistant <==> m.authorId == ctx.botId)
    ensures r.Err? <==> m.authorId != ctx.botId && m.kind != MemberJoinType
                        && (m.member.None? || (m.kind == ReplyType && w.Fallback?))
  {
    if m.authorId == ctx.botId then Ok(AssistantEntry(m))
    else if m.kind == MemberJoinType then Ok(JoinEntry(m))
    else
      match UserContent(m, ctx, w)
      case Err(f) => Err(f)
      case Ok(c) => Ok(Entry(User, c))
  }

  /** One pass of the loop body (index.js:103-147): the entry the message
      becomes, built the way the loop builds it. */
  method TranscribeMessage(message: Message, ctx: Context, w: Window) returns (r: Result<Entry>)
    ensures r == EntryFor(message, ctx, w)
  {
    if message.authorId == ctx.botId {
      return Ok(Entry(Assistant, message.content));
    }
    if message.kind == MemberJoinType {
      return Ok(Entry(User, "<@" + message.authorId + "> joined the server."));
    }
    var content := BuildUserContent(message, ctx, w);
    if content.Err? {
      return Err(content.fault);
    }
    return Ok(Entry(User, content.value));
  }

  // ---------------------------------------------------------------------
  // The whole window

  /** The entries `step` gives for messages taken in the given order; the
      first message that throws ends the run. */
  function Walk(ms: seq<Message>, step: Message -> Result<Entry>): Result<seq<Entry>>
    decreases |ms|
  {
    if ms == [] then Ok([])
    else
      match Walk(ms[..|ms| - 1], step)
      case Err(f) => Err(f)
      case Ok(es) =>
        match step(ms[|ms| - 1])
        case Err(f) => Err(f)
        case Ok(e) => Ok(es + [e])
  }

  /** The per-message rule of one run. */
  function Step(ctx: Context, w: Window): Message -> Result<Entry> {
    m => EntryFor(m, ctx, w)
  }

  /** The entries the loop pushes after the system entry: the window walked
      oldest first. */
  function History(ctx: Context, w: Window): Result<seq<Entry>> {
    Walk(Reverse(Items(w)), Step(ctx, w))
  }

  /** The prompt for one run: the system entry, then the history. The guild
      is read first, so a direct message throws before any message is
      walked. */
  function Transcript(ctx: Context, w: Window): Result<seq<Entry>> {
    match SystemEntry(ctx)
    case Err(f) => Err(f)
    case Ok(s) =>
      match History(ctx, w)
      case Err(f) => Err(f)
      case Ok(es) => Ok([s] + es)
  }

  /** Once a prefix of the walk has thrown, the rest of the walk does not
      change the outcome. */
  lemma {:induction false} WalkAbort(ms: seq<Message>, k: nat, step: Message -> Result<Entry>)
    requires k <= |ms| && Walk(ms[..k], step).Err?
    ensures Walk(ms, step) == Walk(ms[..k], step)
    decreases |ms| - k
  {
    if k < |ms| {
      var init := ms[..|ms| - 1];
      assert init[..k] == ms[..k];
      WalkAbort(init, k, step);
    } else {
      assert ms[..k] == ms;
    }
  }

  /** The loop of index.js:100-148: walk the reversed window and push one
      entry per message onto `messages`, which holds the entries built so
      far. */
  method PushHistory(ctx: Context, w: Window, messages: seq<Entry>) returns (r: Result<seq<Entry>>)
    ensures History(ctx, w).Err? ==> r == Err(History(ctx, w).fault)
    ensures History(ctx, w).Ok? ==> r == Ok(messages + History(ctx, w).value)
  {
    var pushed := messages;
    var ordered := Reverse(Items(w));
    ghost var step := Step(ctx, w);
    ghost var tail: seq<Entry> := [];
    assert ordered[..0] == [];
    for i := 0 to |ordered|
      invariant pushed == messages + tail
      invariant Walk(ordered[..i], step) == Ok(tail)
    {
      var entry := TranscribeMessage(ordered[i], ctx, w);
      WalkExtend(ordered, i, step, tail);
      if entry.Err? {
        WalkAbort(ordered, i + 1, step);
        return Err(entry.fault);
      }
      pushed := pushed + [entry.value];
      tail := tail + [entry.value];
    }
    assert ordered[..|ordered|] == ordered;
    return Ok(pushed);
  }

  /** One more message extends a walk by that message's step. */
  lemma WalkExtend(ms: seq<Message>, i: nat, step: Message -> Result<Entry>, es: seq<Entry>)
    requires i < |ms| && Walk(ms[..i], step) == Ok(es)
    ensures step(ms[i]).Err? ==> Walk(ms[..i + 1], step) == Err(step(ms[i]).fault)
    ensures step(ms[i]).Ok? ==> Walk(ms[..i + 1], step) == Ok(es + [step(ms[i]).value])
  {
    assert ms[..i + 1][..i] == ms[..i];
  }

  /** index.js:77-148: the system entry, then the history pushed after it. */
  method Transcribe(ctx: Context, w: Window) returns (r: Result<seq<Entry>>)
    ensures r == Transcript(ctx, w)
  {
    var system := SystemEntry(ctx);
    if system.Err? {
      return Err(system.fault);
    }
    r := PushHistory(ctx, w, [system.value]);
  }

  // ---------------------------------------------------------------------
  // Properties of the transcript

  /** A walk that completes yields one entry per message, in walk order. */
  lemma {:induction false} WalkShape(ms: seq<Message>, step: Message -> Result<Entry>, es: seq<Entry>)
    requires Walk(ms, step) == Ok(es)
    ensures |es| == |ms|
    ensures forall k :: 0 <= k < |ms| ==> step(ms[k]) == Ok(es[k])
    decreases |ms|
  {
    if ms != [] {
      var init := ms[..|ms| - 1];
      var prev := Walk(init, step).value;
      WalkShape(init, step, prev);
      assert es == prev + [es[|es| - 1]];
      forall k | 0 <= k < |ms| ensures step(ms[k]) == Ok(es[k]) {
        if k < |ms| - 1 {
          assert ms[k] == init[k];
        }
      }
    }
  }

  /** Walking a reversed sequence: the message at position `j` gives the
      entry at position `|items| - 1 - j`. */
  lemma WalkReversed(items: seq<Message>, step: Message -> Result<Entry>, tail: seq<Entry>)
    requires Walk(Reverse(items), step) == Ok(tail)
    ensures |tail| == |items|
    ensures forall j :: 0 <= j < |items| ==> step(items[j]) == Ok(tail[|items| - 1 - j])
  {
    var ordered := Reverse(items);
    WalkShape(ordered, step, tail);
    forall j | 0 <= j < |items| ensures step(items[j]) == Ok(tail[|items| - 1 - j]) {
      assert ordered[|items| - 1 - j] == items[j];
    }
  }

  /** A walk throws exactly when one of its messages throws. */
  lemma {:induction false} WalkFails(ms: seq<Message>, step: Message -> Result<Entry>)
    ensures Walk(ms, step).Err? <==> exists k :: 0 <= k < |ms| && step(ms[k]).Err?
    decreases |ms|
  {
    if ms != [] {
      var init := ms[..|ms| - 1];
      WalkFails(init, step);
      if exists k :: 0 <= k < |init| && step(init[k]).Err? {
        var k :| 0 <= k < |init| && step(init[k]).Err?;
        assert ms[k] == init[k];
      }
      if exists k :: 0 <= k < |ms| && step(ms[k]).Err? {
        var k :| 0 <= k < |ms| && step(ms[k]).Err?;
        if k < |ms| - 1 {
          assert init[k] == ms[k];
        }
      }
    }
  }

  /** Walking a reversed sequence throws exactly when one of its elements
      throws. */
  lemma WalkReversedFails(items: seq<Message>, step: Message -> Result<Entry>)
    ensures Walk(Reverse(items), step).Err? <==> exists j :: 0 <= j < |items| && step(items[j]).Err?
  {
    var ordered := Reverse(items);
    WalkFails(ordered, step);
    if exists j :: 0 <= j < |items| && step(items[j]).Err? {
      var j :| 0 <= j < |items| && step(items[j]).Err?;
      assert ordered[|items| - 1 - j] == items[j];
    }
    if exists k :: 0 <= k < |ordered| && step(ordered[k]).Err? {
      var k :| 0 <= k < |ordered| && step(ordered[k]).Err?;
      assert ordered[k] == items[|items| - 1 - k];
    }
  }

  /** The history holds one entry for each message of the window, oldest
      message first, and none of them is a system entry. */
  lemma HistoryShape(ctx: Context, w: Window, es: seq<Entry>)
    requires History(ctx, w) == Ok(es)
    ensures |es| == |Items(w)|
    ensures forall j :: 0 <= j < |Items(w)| ==> EntryFor(Items(w)[j], ctx, w) == Ok(es[|Items(w)| - 1 - j])
    ensures forall i :: 0 <= i < |es| ==> es[i].role != System
  {
    var step := Step(ctx, w);
    WalkReversed(Items(w), step, es);
    forall i | 0 <= i < |es| ensures es[i].role != System {
      assert step(Items(w)[|es| - 1 - i]) == Ok(es[i]);
    }
  }

  /** The history fails exactly when one message of the window throws. */
  lemma HistoryFails(ctx: Context, w: Window)
    ensures History(ctx, w).Err? <==>
              exists j :: 0 <= j < |Items(w)| && EntryFor(Items(w)[j], ctx, w).Err?
  {
    var step := Step(ctx, w);
    WalkReversedFails(Items(w), step);
    assert forall j :: 0 <= j < |Items(w)| ==> step(Items(w)[j]) == EntryFor(Items(w)[j], ctx, w);
  }

  /** The messages list the loop ends with: the system entry it started
      from, then one entry per message of the window; the first entry is the
      only system entry. */
  lemma PromptShape(system: Entry, ctx: Context, w: Window, es: seq<Entry>)
    requires system.role == System && History(ctx, w) == Ok(es)
    ensures |[system] + es| == |Items(w)| + 1
    ensures forall i :: 0 <= i < |[system] + es| ==> (([system] + es)[i].role == System <==> i == 0)
  {
    HistoryShape(ctx, w, es);
    forall i | 1 <= i < |[system] + es| ensures ([system] + es)[i].role != System {
      assert ([system] + es)[i] == es[i - 1];
    }
  }

  /** The prompt one run builds: one entry more than the window holds, and
      the first entry is the only system entry. */
  lemma TranscriptShape(ctx: Context, w: Window, p: seq<Entry>)
    requires Transcript(ctx, w) == Ok(p)
    ensures |p| == |Items(w)| + 1
    ensures forall i :: 0 <= i < |p| ==> (p[i].role == System <==> i == 0)
  {
    var s := SystemEntry(ctx).value;
    var es := History(ctx, w).value;
    assert p == [s] + es;
    PromptShape(s, ctx, w, es);
  }

  /** No prompt is produced exactly when the guild is missing or some
      message of the window throws. */
  lemma TranscriptFails(ctx: Context, w: Window)
    ensures Transcript(ctx, w).Err? <==>
              ctx.guild.None? || exists j :: 0 <= j < |Items(w)| && EntryFor(Items(w)[j], ctx, w).Err?
  {
    HistoryFails(ctx, w);
  }

  // ---------------------------------------------------------------------
  // Properties of a user entry

  /** No marker is written exactly when none of the four conditions holds. */
  lemma NoMarkers(m: Message, member: Member, t: string)
    ensures Markers(m, member, t) == "" <==>
              member.displayName == "" && !m.authorIsBot && !m.edited && m.kind != ReplyType
  {
    if Markers(m, member, t) == "" {
      assert |NameMarker(member)| == 0 && |BotMarker(m)| == 0;
      assert |EditedMarker(m)| == 0 && |ReplyMarkerIf(m, t)| == 0;
    }
  }

  /** What a user entry's content is made of once it exists. */
  lemma UserContentParts(m: Message, ctx: Context, w: Window, c: string)
    requires UserContent(m, ctx, w) == Ok(c)
    ensures m.member.Some? && TargetOf(m, w).Ok?
    ensures c == Substituted(RawContent(m, m.member.value, TargetOf(m, w).value, ctx.isoTime), ctx.users)
                 + AttachmentSuffix(m)
  {
  }

  /** The timestamp line and `[tag]` lead the content untouched by mention
      rewriting when they hold no `<`. */
  lemma StampKept(m: Message, ctx: Context, w: Window, c: string)
    requires UserContent(m, ctx, w) == Ok(c)
    requires '<' !in Stamp(m, ctx.isoTime)
    ensures |Stamp(m, ctx.isoTime)| <= |c| && c[..|Stamp(m, ctx.isoTime)|] == Stamp(m, ctx.isoTime)
  {
    UserContentParts(m, ctx, w, c);
    var stamp := Stamp(m, ctx.isoTime);
    var rest := RawSplit(m, m.member.value, TargetOf(m, w).value, ctx.isoTime);
    SubstitutedSkip(stamp, rest, ctx.users);
    var rewritten := Substituted(rest, ctx.users);
    assert c == stamp + rewritten + AttachmentSuffix(m);
    assert c[..|stamp|] == (stamp + rewritten + AttachmentSuffix(m))[..|stamp|];
  }

  /** The raw content is the stamp followed by what the markers, the colon
      line and the body make; `rest` is that remainder. */
  lemma RawSplit(m: Message, member: Member, t: string, now: string) returns (rest: string)
    ensures RawContent(m, member, t, now) == Stamp(m, now) + rest
    ensures rest == Markers(m, member, t) + ":\n" + m.content
  {
    rest := Markers(m, member, t) + ":\n" + m.content;
    assert Stamp(m, now) + Markers(m, member, t) + ":\n" + m.content == Stamp(m, now) + rest;
  }

  /** The attachment line is appended after mention rewriting, so it reaches
      the model exactly as serialised, and its count reads back as the
      number of attachments. Without attachments there is no such line. */
  lemma AttachmentLine(m: Message, ctx: Context, w: Window, c: string)
    requires UserContent(m, ctx, w) == Ok(c)
    ensures m.attachmentCount > 0 ==>
              EndsWith(c, "\n\n" + (Decimal(m.attachmentCount) + " attachment(s): " + m.attachmentsJson))
              && DecimalValue(Decimal(m.attachmentCount)) == m.attachmentCount
    ensures m.attachmentCount == 0 ==>
              c == Substituted(RawContent(m, m.member.value, TargetOf(m, w).value, ctx.isoTime), ctx.users)
  {
    UserContentParts(m, ctx, w, c);
    var rewritten := Substituted(RawContent(m, m.member.value, TargetOf(m, w).value, ctx.isoTime), ctx.users);
    if m.attachmentCount > 0 {
      DecimalRoundTrip(m.attachmentCount);
      assert c[|c| - |AttachmentSuffix(m)|..] == AttachmentSuffix(m);
    } else {
      assert c == rewritten + "";
    }
  }

  /** A message with no marker, no attachment and no `<` anywhere is sent as
      the timestamp line, `[tag]:` and the body, whatever the user cache
      holds. */
  lemma PlainMessage(m: Message, ctx: Context, w: Window)
    requires m.authorId != ctx.botId && m.kind != MemberJoinType && m.kind != ReplyType
    requires m.member == Some(Member("")) && !m.authorIsBot && !m.edited && m.attachmentCount == 0
    requires '<' !in ctx.isoTime && '<' !in m.authorTag && '<' !in m.content
    ensures EntryFor(m, ctx, w) ==
              Ok(Entry(User, ctx.isoTime + "\n" + "[" + m.authorTag + "]" + ":\n" + m.content))
  {
    var raw := RawContent(m, Member(""), "", ctx.isoTime);
    var expected := ctx.isoTime + "\n" + "[" + m.authorTag + "]" + ":\n" + m.content;
    assert Markers(m, Member(""), "") == "";
    assert raw == expected;
    assert '<' !in expected by {
      forall i | 0 <= i < |expected| ensures expected[i] != '<' {
        var a := ctx.isoTime + "\n" + "[" + m.authorTag + "]" + ":\n";
        if i < |ctx.isoTime| {
          assert expected[i] == ctx.isoTime[i];
        } else if i < |ctx.isoTime| + 2 {
        } else if i < |ctx.isoTime| + 2 + |m.authorTag| {
          assert expected[i] == m.authorTag[i - |ctx.isoTime| - 2];
        } else if i < |a| {
        } else {
          assert expected[i] == m.content[i - |a|];
        }
      }
    }
    AbsentWithoutHead(expected, "<@");
    SubstitutedPlainText(expected, ctx.users);
    assert UserContent(m, ctx, w) == Ok(expected + "");
    assert expected + "" == expected;
  }

  /** The reply-marker expression never reaches its `"unknown"` operand and
      never closes the bracket: with snowflake (all-digit) author ids in the
      window, the target is an author's id or `"undefined"`, and the marker
      ends in a digit or a `d`. */
  lemma ReplyMarkerNeverCloses(ms: seq<Message>, id: string, t: string)
    requires forall k :: 0 <= k < |ms| ==> AllDigits(ms[k].authorId)
    requires ReplyTarget(Fetched(ms), id) == Ok(t)
    ensures t == "undefined" || AllDigits(t)
    ensures t != "unknown"
    ensures !EndsWith(ReplyMarker(t), "])")
  {
    var marker := ReplyMarker(t);
    if t == "undefined" {
      assert marker[|marker| - 1] == 'd';
    } else {
      var k :| 0 <= k < |ms| && ms[k].id == id && ms[k].authorId == t;
      assert AllDigits(t);
      if t != [] {
        assert marker[|marker| - 1] == t[|t| - 1];
        assert IsDigit(t[0]) && !IsDigit("unknown"[0]);
      } else {
        assert marker[|marker| - 1] == '[';
      }
    }
    assert marker[|marker| - 2..][1] == marker[|marker| - 1] != ')';
  }

  /** The chat `[human: "hi", bot: "hey"]`, fetched newest first, becomes
      the human's user entry, then the bot's own reply as the assistant's
      turn. */
  lemma HumanThenBot(ctx: Context, human: Message, bot: Message, c: string)
    requires bot.authorId == ctx.botId
    requires human.authorId != ctx.botId && human.kind != MemberJoinType
    requires UserContent(human, ctx, Fetched([bot, human])) == Ok(c)
    ensures History(ctx, Fetched([bot, human])) == Ok([Entry(User, c), Entry(Assistant, bot.content)])
  {
    var w := Fetched([bot, human]);
    var ordered := Reverse(Items(w));
    var step := Step(ctx, w);
    assert ordered[0] == human && ordered[1] == bot;
    assert ordered[..0] == [] && ordered[..2] == ordered;
    assert step(human) == Ok(Entry(User, c));
    WalkExtend(ordered, 0, step, []);
    assert [] + [Entry(User, c)] == [Entry(User, c)];
    WalkExtend(ordered, 1, step, [Entry(User, c)]);
    assert step(bot) == Ok(Entry(Assistant, bot.content));
    assert [Entry(User, c)] + [Entry(Assistant, bot.content)] == [Entry(User, c), Entry(Assistant, bot.content)];
  }
}
