/**
 * The part of an inbound WhatsApp message (`WAMessage`) that the bot reads,
 * and the text extraction that the dispatcher, the session manager and the
 * handlers all write out the same way:
 * `msg.message?.conversation || msg.message?.extendedTextMessage?.text`.
 */
module Wa {
  import opened Js

  datatype MessageKey = MessageKey(remoteJid: string, participant: Option<string>, fromMe: bool)

  /** `extendedTextMessage`, with its `contextInfo.mentionedJid` list. */
  datatype ExtendedText = ExtendedText(text: Option<string>, mentionedJid: Option<seq<string>>)

  datatype Content = Content(conversation: Option<string>, extendedTextMessage: Option<ExtendedText>)

  datatype WAMessage = WAMessage(key: MessageKey, message: Option<Content>)

  function Conversation(msg: WAMessage): Option<string>
  {
    if msg.message.Some? then msg.message.value.conversation else None
  }

  function ExtendedTextOf(msg: WAMessage): Option<string>
  {
    if msg.message.Some? && msg.message.value.extendedTextMessage.Some?
    then msg.message.value.extendedTextMessage.value.text
    else None
  }

  /** The message text: `conversation` when truthy, else the extended text (possibly absent or empty). */
  function TextOf(msg: WAMessage): (text: Option<string>)
    ensures TruthyStr(Conversation(msg)) ==> text == Conversation(msg)
    ensures !TruthyStr(Conversation(msg)) ==> text == ExtendedTextOf(msg)
    ensures TruthyStr(text) <==> TruthyStr(Conversation(msg)) || TruthyStr(ExtendedTextOf(msg))
  {
    Or(Conversation(msg), ExtendedTextOf(msg))
  }

  /** Baileys' `isJidNewsletter`: the JID ends with `@newsletter`. */
  predicate IsJidNewsletter(jid: string)
  {
    EndsWith(jid, "@newsletter")
  }
}
