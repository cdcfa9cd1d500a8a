/**
 * `ChatSessionManager`: the conversation key of a message, the decision
 * whether the bot is being addressed, and the session marker and history
 * list it keeps in the store.
 *
 * The manager is modelled in the state `init` leaves it in when Redis is
 * unreachable: its client is the in-memory store of module `Memory`. The
 * session TTL, which the source refers to as `SESSION_TTL` without ever
 * declaring it, is the parameter `ttl` (seconds). `Date.now()` is `now`.
 * History entries are stored as values; `JSON.stringify` followed by
 * `JSON.parse` of `{senderId, message, at}` is taken to give the entry back.
 */
module Session {
  import opened Js
  import opened Wa
  import opened Memory

  /** One history record, `{ senderId, message, at }`. */
  datatype HistoryEntry = HistoryEntry(senderId: string, message: Option<string>, at: int)

  /** What `extractMsg` reads from a message. */
  datatype Extracted = Extracted(text: Option<string>, senderId: string, groupId: Option<string>, mentions: seq<string>)

  const Prefix := "chat-session:"
  const HistorySuffix := ":history"

  /** `chat-session:<groupId>:<senderId>` when `groupId` is truthy, else `chat-session:private:<senderId>`. */
  function SessionKey(senderId: string, groupId: Option<string>): (key: string)
    ensures StartsWith(key, Prefix) && EndsWith(key, ":" + senderId)
  {
    if TruthyStr(groupId) then Prefix + groupId.value + ":" + senderId
    else Prefix + "private:" + senderId
  }

  function HistoryKey(sessionKey: string): (key: string)
    ensures key != sessionKey && EndsWith(key, HistorySuffix)
  {
    var key := sessionKey + HistorySuffix;
    assert |key| > |sessionKey|;
    key
  }

  /** Two senders of the same conversation never share a session key. */
  lemma SessionKeyInjective(s1: string, s2: string, groupId: Option<string>)
    requires SessionKey(s1, groupId) == SessionKey(s2, groupId)
    ensures s1 == s2
  {
    var k := SessionKey(s1, groupId);
    var n := |k| - |s1|;
    assert k[n..] == s1;
    assert k[n..] == s2;
  }

  /**
   * A group key cannot equal a private key unless the group id itself begins
   * with `private` (real group JIDs end in `@g.us` and are digits before it).
   */
  lemma GroupKeyIsNotPrivateKey(g: string, s1: string, s2: string)
    requires g != "" && !StartsWith(g, "private")
    ensures SessionKey(s1, Some(g)) != SessionKey(s2, None)
  {
    var gk := SessionKey(s1, Some(g));
    var pk := SessionKey(s2, None);
    var tail := "private:" + s2;
    assert pk == Prefix + tail;
    assert gk == Prefix + (g + ":" + s1);
    if |g| >= 7 {
      assert g[..7] != "private";
      var j :| 0 <= j < 7 && g[..7][j] != "private"[j];
      assert gk[13 + j] == g[j] && pk[13 + j] == "private"[j];
    } else {
      assert gk[13 + |g|] == ':' && pk[13 + |g|] == "private"[|g|];
    }
  }

  /**
   * `extractMsg`: the text, the sender (`participant` if truthy, else
   * `remoteJid`), the group (`remoteJid` when it contains `@g.us`, else
   * null) and the mention list (default `[]`).
   */
  function ExtractMsg(msg: WAMessage): (e: Extracted)
    ensures e.text == TextOf(msg)
    ensures e.senderId == if TruthyStr(msg.key.participant) then msg.key.participant.value else msg.key.remoteJid
    ensures e.groupId.Some? <==> Includes(msg.key.remoteJid, "@g.us")
    ensures e.groupId.Some? ==> e.groupId.value == msg.key.remoteJid && TruthyStr(e.groupId)
  {
    var senderId := if TruthyStr(msg.key.participant) then msg.key.participant.value else msg.key.remoteJid;
    var groupId := if Includes(msg.key.remoteJid, "@g.us") then Some(msg.key.remoteJid) else None;
    IncludesSpec(msg.key.remoteJid, "@g.us");
    var mentions :=
      if msg.message.Some? && msg.message.value.extendedTextMessage.Some?
         && msg.message.value.extendedTextMessage.value.mentionedJid.Some?
      then msg.message.value.extendedTextMessage.value.mentionedJid.value
      else [];
    Extracted(TextOf(msg), senderId, groupId, mentions)
  }

  /** The group id is set exactly when `@g.us` occurs somewhere in `remoteJid`. */
  lemma GroupIdIffGroupJid(msg: WAMessage)
    ensures ExtractMsg(msg).groupId.Some? <==>
      exists i :: 0 <= i <= |msg.key.remoteJid| && StartsWith(msg.key.remoteJid[i..], "@g.us")
  {
    IncludesSpec(msg.key.remoteJid, "@g.us");
  }

  function SessionKeyOf(msg: WAMessage): string
  {
    var e := ExtractMsg(msg);
    SessionKey(e.senderId, e.groupId)
  }

  /** `isTalkingToMe`: a live session, or the bot mentioned, or a one-to-one chat. */
  function TalkingToMe(st: Snapshot<HistoryEntry>, botId: string, msg: WAMessage, now: int): bool
  {
    var e := ExtractMsg(msg);
    ExistsAt(st, SessionKey(e.senderId, e.groupId), now) == 1 || botId in e.mentions || !TruthyStr(e.groupId)
  }

  /** Every message outside a group is addressed to the bot, whatever the store or the mentions. */
  lemma PrivateIsAlwaysTalking(st: Snapshot<HistoryEntry>, botId: string, msg: WAMessage, now: int)
    requires !Includes(msg.key.remoteJid, "@g.us")
    ensures TalkingToMe(st, botId, msg, now)
  {
  }

  /** A mention of the bot is enough, in a group too. */
  lemma MentionIsTalking(st: Snapshot<HistoryEntry>, botId: string, msg: WAMessage, now: int)
    requires botId in ExtractMsg(msg).mentions
    ensures TalkingToMe(st, botId, msg, now)
  {
  }

  /** A group message that does not mention the bot is ignored unless its session is live. */
  lemma ColdGroupIsIgnored(st: Snapshot<HistoryEntry>, botId: string, msg: WAMessage, now: int)
    requires Includes(msg.key.remoteJid, "@g.us")
    requires botId !in ExtractMsg(msg).mentions
    ensures TalkingToMe(st, botId, msg, now) <==> Current(st, SessionKeyOf(msg), now).Some?
  {
  }

  /** The result of a store-writing step: whether it completed, and the store after it. */
  datatype Step = Step(ok: bool, st: Snapshot<HistoryEntry>)

  /**
   * `appendHistory`: push the entry onto `<sessionKey>:history`, then restart
   * that list's deadline. A throwing `rPush` ends the call before `expire`.
   */
  function AppendState(st: Snapshot<HistoryEntry>, sessionKey: string, entry: HistoryEntry, ttl: int, now: int): (r: Step)
    ensures !r.ok ==> r.st == Swept(st, HistoryKey(sessionKey), now)
  {
    var hk := HistoryKey(sessionKey);
    match PushState(st, hk, entry, now)
    case None => Step(false, Swept(st, hk, now))
    case Some(pushed) => Step(true, ExpireState(pushed, hk, ttl, now))
  }

  /** `touchSession`: mark the session `'active'` for `ttl` seconds, then append the message to its history. */
  function TouchState(st: Snapshot<HistoryEntry>, msg: WAMessage, ttl: int, now: int): Step
  {
    var e := ExtractMsg(msg);
    var key := SessionKey(e.senderId, e.groupId);
    AppendState(SetExState(st, key, ttl, Scalar("active"), now), key, HistoryEntry(e.senderId, e.text, now), ttl, now)
  }

  /**
   * After `touchSession` on a consistent store whose history list is live (or
   * absent), the session is marked `'active'` until `now + ttl * 1000`, the
   * history list is the old one with exactly the new entry at its end, and
   * its deadline is restarted too.
   */
  lemma TouchSessionEffect(st: Snapshot<HistoryEntry>, msg: WAMessage, ttl: int, now: int, before: seq<HistoryEntry>)
    requires Valid(st) && ttl >= 0
    requires var hk := HistoryKey(SessionKeyOf(msg));
      Current(st, hk, now) == Some(List(before)) || Current(st, hk, now).None?
    ensures var r := TouchState(st, msg, ttl, now);
      var e := ExtractMsg(msg);
      var key := SessionKeyOf(msg);
      var hk := HistoryKey(key);
      r.ok && r.st.store[key] == Scalar("active") && r.st.expiry[key] == Deadline(now, ttl)
      && r.st.store[hk] == List((if Current(st, hk, now).None? then [] else before) + [HistoryEntry(e.senderId, e.text, now)])
      && r.st.expiry[hk] == Deadline(now, ttl)
      && ExistsAt(r.st, key, now) == 1
  {
    var e := ExtractMsg(msg);
    var key := SessionKeyOf(msg);
    var hk := HistoryKey(key);
    var st1 := SetExState(st, key, ttl, Scalar("active"), now);
    assert Current(st1, hk, now) == Current(st, hk, now);
    var entry := HistoryEntry(e.senderId, e.text, now);
    if Current(st, hk, now).None? {
      PushStartsList(st1, hk, entry, now);
    } else {
      PushAppends(st1, hk, before, entry, now);
    }
  }

  /** Appending a run of entries, one `appendHistory` after the other. */
  function AppendAll(st: Snapshot<HistoryEntry>, sessionKey: string, entries: seq<HistoryEntry>, ttl: int, now: int): Step
    decreases |entries|
  {
    if entries == [] then Step(true, st)
    else
      var r := AppendAll(st, sessionKey, entries[..|entries| - 1], ttl, now);
      if !r.ok then r else AppendState(r.st, sessionKey, entries[|entries| - 1], ttl, now)
  }

  /**
   * History is a log in arrival order: appending A, B, C to a conversation
   * with no live history leaves exactly [A, B, C] in the store, none merged
   * and none reordered, with a live deadline.
   */
  lemma {:induction false} HistoryKeepsAppendOrder(st: Snapshot<HistoryEntry>, sessionKey: string, entries: seq<HistoryEntry>, ttl: int, now: int)
    requires Valid(st) && ttl >= 0
    requires Current(st, HistoryKey(sessionKey), now).None?
    ensures var r := AppendAll(st, sessionKey, entries, ttl, now);
      r.ok && Valid(r.st)
      && (entries != [] ==> Current(r.st, HistoryKey(sessionKey), now) == Some(List(entries)))
      && (entries == [] ==> Current(r.st, HistoryKey(sessionKey), now).None?)
    decreases |entries|
  {
    var hk := HistoryKey(sessionKey);
    if entries != [] {
      var init := entries[..|entries| - 1];
      var last := entries[|entries| - 1];
      HistoryKeepsAppendOrder(st, sessionKey, init, ttl, now);
      var r := AppendAll(st, sessionKey, init, ttl, now);
      if init == [] {
        PushStartsList(r.st, hk, last, now);
      } else {
        PushAppends(r.st, hk, init, last, now);
      }
      ValidPreserved(r.st, hk, ttl, Scalar(""), last, now);
      var pushed := PushState(r.st, hk, last, now).value;
      ValidPreserved(pushed, hk, ttl, Scalar(""), last, now);
      assert init + [last] == entries;
    }
  }

  /**
   * `getChatHistory`: `lRange(<key>:history, 0, -1)` then `JSON.parse` of each
   * element. A string stored under the history key has no `map`, so the call
   * throws (None).
   */
  function ChatHistoryOf(st: Snapshot<HistoryEntry>, senderId: string, groupId: Option<string>, now: int): Option<seq<HistoryEntry>>
  {
    match RangeOf(Current(st, HistoryKey(SessionKey(senderId, groupId)), now), 0, -1)
    case List(items) => Some(items)
    case Scalar(_) => None
  }

  /**
   * With the in-memory store, `lRange(key, 0, -1)` is `slice(0, 0)`, so the
   * history comes back empty however many entries were appended: the
   * read-back never sees the log that `appendHistory` keeps.
   */
  lemma ChatHistoryIsEmpty(st: Snapshot<HistoryEntry>, senderId: string, groupId: Option<string>, now: int)
    ensures ChatHistoryOf(st, senderId, groupId, now) == Some([])
      || (ChatHistoryOf(st, senderId, groupId, now).None?
          && Current(st, HistoryKey(SessionKey(senderId, groupId)), now).Some?
          && st.store[HistoryKey(SessionKey(senderId, groupId))].Scalar?)
  {
    RangeZeroMinusOne(Current(st, HistoryKey(SessionKey(senderId, groupId)), now));
  }

  /** Even straight after appending entries, the read-back is empty. */
  lemma AppendedHistoryReadsEmpty(st: Snapshot<HistoryEntry>, senderId: string, groupId: Option<string>, entries: seq<HistoryEntry>, ttl: int, now: int)
    requires Valid(st) && ttl >= 0
    requires Current(st, HistoryKey(SessionKey(senderId, groupId)), now).None?
    requires entries != []
    ensures var r := AppendAll(st, SessionKey(senderId, groupId), entries, ttl, now);
      Current(r.st, HistoryKey(SessionKey(senderId, groupId)), now) == Some(List(entries))
      && ChatHistoryOf(r.st, senderId, groupId, now) == Some([])
  {
    HistoryKeepsAppendOrder(st, SessionKey(senderId, groupId), entries, ttl, now);
  }

  class ChatSessionManager {
    const botId: string
    var client: InMemoryRedis<HistoryEntry>

    /** The manager after `init` has fallen back to a fresh in-memory store. */
    constructor (botId: string)
      ensures this.botId == botId && fresh(client)
      ensures client.Snap() == Snapshot(map[], map[])
    {
      this.botId := botId;
      client := new InMemoryRedis<HistoryEntry>();
    }

    /** The only store write is the lazy removal of an expired session key; the live view is untouched. */
    method IsTalkingToMe(msg: WAMessage, now: int) returns (talking: bool)
      modifies client
      ensures talking == TalkingToMe(old(client.Snap()), botId, msg, now)
      ensures client.Snap() == Swept(old(client.Snap()), SessionKeyOf(msg), now)
      ensures Live(client.Snap(), now) == Live(old(client.Snap()), now)
    {
      var e := ExtractMsg(msg);
      var key := SessionKey(e.senderId, e.groupId);
      var sessionActive := client.Exists(key, now);
      var isTagged := botId in e.mentions;
      var isPrivate := !TruthyStr(e.groupId);
      talking := sessionActive == 1 || isTagged || isPrivate;
      SweepKeepsLiveView(old(client.Snap()), key, now);
    }

    method TouchSession(msg: WAMessage, ttl: int, now: int) returns (ok: bool)
      modifies client
      ensures Step(ok, client.Snap()) == TouchState(old(client.Snap()), msg, ttl, now)
    {
      var e := ExtractMsg(msg);
      var key := SessionKey(e.senderId, e.groupId);
      client.SetEx(key, ttl, Scalar("active"), now);
      ok := AppendHistory(key, e.senderId, e.text, ttl, now);
    }

    /** Returns None where the source throws. */
    method GetChatHistory(senderId: string, groupId: Option<string>, now: int) returns (history: Option<seq<HistoryEntry>>)
      modifies client
      ensures history == ChatHistoryOf(old(client.Snap()), senderId, groupId, now)
      ensures client.Snap() == Swept(old(client.Snap()), HistoryKey(SessionKey(senderId, groupId)), now)
    {
      var key := HistoryKey(SessionKey(senderId, groupId));
      var range := client.LRange(key, 0, -1, now);
      match range
      case List(items) =>
        history := Some(items);
      case Scalar(_) =>
        history := None;
    }

    method AppendHistory(sessionKey: string, senderId: string, message: Option<string>, ttl: int, now: int) returns (ok: bool)
      modifies client
      ensures Step(ok, client.Snap()) == AppendState(old(client.Snap()), sessionKey, HistoryEntry(senderId, message, now), ttl, now)
    {
      var historyKey := HistoryKey(sessionKey);
      ok := client.RPush(historyKey, HistoryEntry(senderId, message, now), now);
      if ok {
        client.Expire(historyKey, ttl, now);
      }
    }
  }
}
