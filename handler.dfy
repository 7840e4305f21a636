/** The `messageCreate` handler around the transcriber (index.js:50-98):
    which messages it answers, the history it walks when the channel history
    cannot be fetched, and the prompt one run hands to the model. */
module Handler {
  import opened Chat
  import opened Transcriber

  /** The one user whose messages are always ignored. */
  const BlockedUserId := "694548530144083978"

  /** Why a new message is ignored, or that it is answered. */
  datatype Verdict = FromSelf | FromBot | FromBlockedUser | NotMentioned | Respond

  /** The four early returns of index.js:51-54, tested in this order. */
  function Screen(m: Message, botId: string): (v: Verdict)
    ensures v == Respond <==>
              m.authorId != botId && !m.authorIsBot && m.authorId != BlockedUserId && botId in m.mentions
    ensures v == FromSelf <==> m.authorId == botId
    ensures v == FromBot <==> m.authorId != botId && m.authorIsBot
  {
    if m.authorId == botId then FromSelf
    else if m.authorIsBot then FromBot
    else if m.authorId == BlockedUserId then FromBlockedUser
    else if botId !in m.mentions then NotMentioned
    else Respond
  }

  /** The history of a run: the fetched messages, or, when the fetch throws,
      the one-element Array holding the new message. */
  function HistoryWindow(fetched: Option<seq<Message>>, trigger: Message): Window {
    match fetched
    case Some(ms) => Fetched(ms)
    case None => Fallback(trigger)
  }

  /** How one run of the handler ends before the model is contacted. */
  datatype Outcome =
    | Ignored(verdict: Verdict)   // one of the early returns
    | Silent                      // `sendTyping` threw: the bot cannot post here
    | Crashed(fault: Fault)       // building the prompt threw
    | Request(prompt: seq<Entry>) // the prompt handed to the model

  /** index.js:50-148 up to the request: screen the message, signal typing,
      fetch the history (falling back when that throws), then build the
      prompt. `typingOk` says whether `sendTyping` succeeded and `fetched`
      what the fetch returned, `None` when it threw. */
  method Handle(trigger: Message, ctx: Context, typingOk: bool, fetched: Option<seq<Message>>)
    returns (o: Outcome)
    ensures o.Ignored? <==> Screen(trigger, ctx.botId) != Respond
    ensures o.Ignored? ==> o.verdict == Screen(trigger, ctx.botId)
    ensures o.Silent? <==> Screen(trigger, ctx.botId) == Respond && !typingOk
    ensures o.Request? <==>
              Screen(trigger, ctx.botId) == Respond && typingOk
              && Transcript(ctx, HistoryWindow(fetched, trigger)).Ok?
    ensures o.Request? ==> Transcript(ctx, HistoryWindow(fetched, trigger)) == Ok(o.prompt)
    ensures o.Crashed? ==> Transcript(ctx, HistoryWindow(fetched, trigger)) == Err(o.fault)
  {
    var verdict := Screen(trigger, ctx.botId);
    if verdict != Respond {
      return Ignored(verdict);
    }
    if !typingOk {
      return Silent;
    }
    var window := HistoryWindow(fetched, trigger);
    var prompt := Transcribe(ctx, window);
    if prompt.Err? {
      return Crashed(prompt.fault);
    }
    return Request(prompt.value);
  }

  /** When the fetch throws, the history is the new message alone. It is
      built exactly when that message is a join notice or has a member and
      is not a reply (a reply looks its target up with `get`, which the
      Array lacks); it is then one user entry. */
  lemma FallbackHistory(trigger: Message, ctx: Context)
    requires Screen(trigger, ctx.botId) == Respond
    ensures History(ctx, HistoryWindow(None, trigger)).Ok? <==>
              trigger.kind == MemberJoinType || (trigger.member.Some? && trigger.kind != ReplyType)
    ensures History(ctx, HistoryWindow(None, trigger)).Ok? ==>
              |History(ctx, HistoryWindow(None, trigger)).value| == 1
              && History(ctx, HistoryWindow(None, trigger)).value[0].role == User
    ensures trigger.member.Some? && trigger.kind == ReplyType ==>
              History(ctx, HistoryWindow(None, trigger)) == Err(NotACollection)
  {
    var w := HistoryWindow(None, trigger);
    var ordered := Reverse(Items(w));
    assert ordered == [trigger] && ordered[..0] == [] && ordered[..1] == ordered;
    WalkExtend(ordered, 0, Step(ctx, w), []);
  }
}
