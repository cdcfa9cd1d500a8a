/**
 * The echo message handler (`src/handlers/messages/echo.js`): it replies
 * with the message's own text. Exported with priority 0, disabled unless
 * whitelisted, and without `init`.
 */
module Echo {
  import opened Js
  import opened Wa
  import opened Plugins
  import opened Dispatch

  const Priority: int := 0
  const Enabled := false

  /** What the handler returns, and the texts it queued with `queueReply`. */
  datatype Outcome = Outcome(handled: bool, replies: seq<string>)

  /** The default export. */
  function EchoHandler(msg: WAMessage): (r: Outcome)
    ensures r.handled <==> TruthyStr(TextOf(msg))
    ensures !r.handled ==> r.replies == []
    ensures r.handled ==> r.replies == [TextOf(msg).value] && r.replies[0] != ""
  {
    var text := TextOf(msg);
    if !TruthyStr(text) then Outcome(false, [])
    else Outcome(true, [text.value])
  }

  /** The reply is the conversation text when that is non-empty, else the extended text. */
  lemma EchoRepliesWithText(msg: WAMessage)
    requires TruthyStr(Conversation(msg)) || TruthyStr(ExtendedTextOf(msg))
    ensures TruthyStr(Conversation(msg)) ==> EchoHandler(msg).replies == [Conversation(msg).value]
    ensures !TruthyStr(Conversation(msg)) ==> EchoHandler(msg).replies == [ExtendedTextOf(msg).value]
  {
  }

  /** Every message the dispatcher offers to its handlers has text, so echo answers it. */
  lemma EchoHandlesDispatchedMessages(msg: WAMessage)
    requires !Skipped(msg)
    ensures EchoHandler(msg).handled && |EchoHandler(msg).replies| == 1
  {
  }

  /**
   * With echo first in the handler list, the dispatcher calls only echo on
   * every message it does not skip.
   */
  lemma EchoFirstEndsChain(hs: seq<LoadedHandler>, msgs: seq<WAMessage>, i: nat, handled: (string, nat) -> bool)
    requires i < |msgs| && !Skipped(msgs[i])
    requires hs != [] && hs[0].name == "echo"
    requires handled("echo", i) == EchoHandler(msgs[i]).handled
    ensures MessageEffects(hs, msgs, i, handled) == [MarkRead(i), Invoke("echo", i)]
  {
    ChainStopsAt(hs, i, handled, 1);
    assert Invokes(hs[..1], i) == [Invoke("echo", i)];
  }

  /** The echo export passes the dispatcher's admission unless a list excludes it: only its `enabled` flag needs the whitelist. */
  lemma EchoNeedsWhitelist(m: Exports, blacklist: seq<string>, whitelist: seq<string>)
    requires m.enabled == Bool(Enabled) && m.defaultIsFunction && m.priority == Some(Priority)
    ensures AdmitMessageHandler("echo", m, blacklist, whitelist) <==> "echo" in whitelist && "echo" !in blacklist
  {
  }
}
