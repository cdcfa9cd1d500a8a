/**
 * `PromptBuilder` (`src/llm/prompt.js`): the system part made of the role
 * and the article, and the three prompt formats built from it and a chat
 * history — a ChatML message list, a Qwen prompt string and a plain-text
 * prompt string. The template literals are reproduced with their exact
 * line breaks and indentation.
 */
module Prompt {
  import opened Js

  /** A chat-history entry as the builder destructures it: `{ senderId, message }`. */
  datatype Turn = Turn(senderId: JsValue, message: string)

  /** A ChatML message `{ role, content }`. */
  datatype Message = Message(role: string, content: string)

  /** The separator pushed between the role and the article block. */
  const Separator := "\n\n          -------\n\n        "

  const QwenSystemOpen := "<|im_start|>system"
  const QwenClose := "<|im_end|>"
  const QwenAssistant := "<|im_start|>assistant"
  const PlainRole := "## Peran:"
  const PlainHistory := "## Riwayat percakapan:"
  const PlainAnswer := "### Jawaban IT Support:"

  /** `getRole(sender)`. */
  function RoleOf(sender: JsValue): string
  {
    if sender.Truthy() then "user" else "assistant"
  }

  /** The article block pushed by `buildSystemPart`. */
  function ArticleBlock(article: string): string
  {
    "\n        ### Artikel:\n        " + article + "\n      "
  }

  /** What `buildSystemPart(article)` returns for the builder's role. */
  function SystemParts(role: string, article: string): seq<string>
  {
    (if role != "" then [role] else [])
    + (if article != "" then (if role != "" then [Separator] else []) + [ArticleBlock(article)] else [])
  }

  /** The four shapes of the system part. */
  lemma SystemPartsCases(role: string, article: string)
    ensures role == "" && article == "" ==> SystemParts(role, article) == []
    ensures role != "" && article == "" ==> SystemParts(role, article) == [role]
    ensures role == "" && article != "" ==> SystemParts(role, article) == [ArticleBlock(article)]
    ensures role != "" && article != "" ==> SystemParts(role, article) == [role, Separator, ArticleBlock(article)]
    ensures SystemParts(role, article) == [] <==> role == "" && article == ""
  {
  }

  /** One history entry as a ChatML message. */
  function HistoryMessage(t: Turn): Message
  {
    Message(RoleOf(t.senderId), Trim(t.message))
  }

  /** One message per history entry, in order. */
  function HistoryMessages(history: seq<Turn>): (r: seq<Message>)
    ensures |r| == |history|
    ensures forall i :: 0 <= i < |history| ==> r[i] == HistoryMessage(history[i])
  {
    if history == [] then []
    else
      var init := history[..|history| - 1];
      assert forall i :: 0 <= i < |init| ==> init[i] == history[i];
      HistoryMessages(init) + [HistoryMessage(history[|history| - 1])]
  }

  /** Appending an entry to the history appends its message. */
  lemma HistoryMessagesSnoc(history: seq<Turn>, i: nat)
    requires i < |history|
    ensures HistoryMessages(history[..i + 1]) == HistoryMessages(history[..i]) + [HistoryMessage(history[i])]
  {
    assert history[..i + 1][..i] == history[..i];
  }

  /** The ChatML list: the system message when there is a system part, then one message per entry. */
  function ChatML(parts: seq<string>, history: seq<Turn>): seq<Message>
  {
    SystemMessages(parts) + HistoryMessages(history)
  }

  /** The system message, present when there is a system part. */
  function SystemMessages(parts: seq<string>): (r: seq<Message>)
    ensures |r| == SystemCount(parts)
  {
    if |parts| > 0 then [Message("system", Join(parts, "\n\n"))] else []
  }

  /** How many system messages the ChatML list opens with. */
  function SystemCount(parts: seq<string>): nat
  {
    if |parts| > 0 then 1 else 0
  }

  /**
   * The list opens with a system message exactly when the system part is
   * non-empty, and then has one message per history entry, in order, with
   * the entry's role and trimmed text.
   */
  lemma ChatMLShape(parts: seq<string>, history: seq<Turn>)
    ensures |ChatML(parts, history)| == SystemCount(parts) + |history|
    ensures |parts| > 0 ==> ChatML(parts, history)[0] == Message("system", Join(parts, "\n\n"))
    ensures forall i :: 0 <= i < |history| ==>
      ChatML(parts, history)[SystemCount(parts) + i] == HistoryMessage(history[i])
  {
    ChatMLHistory(parts, history);
  }

  /** After the optional system message, entry `i` of the history is message `i`. */
  lemma ChatMLHistory(parts: seq<string>, history: seq<Turn>)
    ensures forall i :: 0 <= i < |history| ==>
      ChatML(parts, history)[SystemCount(parts) + i] == HistoryMessage(history[i])
  {
    var head := SystemMessages(parts);
    var hm := HistoryMessages(history);
    forall i | 0 <= i < |history|
      ensures ChatML(parts, history)[SystemCount(parts) + i] == HistoryMessage(history[i])
    {
      AppendIndex(head, hm, i);
    }
  }

  lemma AppendIndex<T>(a: seq<T>, b: seq<T>, i: int)
    requires 0 <= i < |b|
    ensures (a + b)[|a| + i] == b[i]
  {
  }



  /** No history entry becomes a system message, so a system message is there only when there is a system part. */
  lemma ChatMLSystemIffParts(parts: seq<string>, history: seq<Turn>)
    ensures (exists i :: 0 <= i < |ChatML(parts, history)| && ChatML(parts, history)[i].role == "system") <==> |parts| > 0
  {
    var msgs := ChatML(parts, history);
    if |parts| > 0 {
      assert msgs[0].role == "system";
    } else {
      assert msgs == HistoryMessages(history);
      forall i | 0 <= i < |msgs| ensures msgs[i].role != "system" {
        assert msgs[i].role == RoleOf(history[i].senderId);
      }
    }
  }

  /** One history entry in the Qwen format. */
  function QwenTurn(t: Turn): string
  {
    "\n        <|im_start|>" + RoleOf(t.senderId) + "\n        " + Trim(t.message) + "\n        <|im_end|>\n      "
  }

  function QwenTurns(history: seq<Turn>): (r: seq<string>)
    ensures |r| == |history| && forall i :: 0 <= i < |history| ==> r[i] == QwenTurn(history[i])
  {
    seq(|history|, i requires 0 <= i < |history| => QwenTurn(history[i]))
  }

  /** The system part wrapped in the Qwen system markers when it is non-empty. */
  function QwenSystem(parts: seq<string>): seq<string>
  {
    if |parts| > 0 then [QwenSystemOpen] + parts + [QwenClose] else []
  }

  function QwenPrompt(parts: seq<string>, history: seq<Turn>): string
  {
    Join([Join(QwenSystem(parts), "\n"), Join(QwenTurns(history), "\n"), QwenAssistant], "\n\n")
  }

  /** The history entries in the plain format. */
  function PlainTurn(t: Turn): string
  {
    "\n        ### " + RoleOf(t.senderId) + ":\n        " + Trim(t.message) + "\n      "
  }

  function PlainTurns(history: seq<Turn>): (r: seq<string>)
    ensures |r| == |history| && forall i :: 0 <= i < |history| ==> r[i] == PlainTurn(history[i])
  {
    seq(|history|, i requires 0 <= i < |history| => PlainTurn(history[i]))
  }

  function PlainHistorySection(history: seq<Turn>): seq<string>
  {
    if |history| > 0 then [PlainHistory] + PlainTurns(history) else []
  }

  function PlainSystem(parts: seq<string>): seq<string>
  {
    if |parts| > 0 then [PlainRole] + parts else []
  }

  function PlainPrompt(parts: seq<string>, history: seq<Turn>): string
  {
    Join([Join(PlainSystem(parts), "\n"), Join(PlainHistorySection(history), "\n"), PlainAnswer], "\n\n")
  }

  /** A three-part join. */
  lemma JoinThree(a: string, b: string, c: string, sep: string)
    ensures Join([a, b, c], sep) == (a + sep + b + sep) + c
  {
    assert [a, b, c][1..] == [b, c];
    assert [b, c][1..] == [c];
    assert Join([c], sep) == c;
    assert Join([b, c], sep) == b + sep + c;
    assert Join([a, b, c], sep) == a + sep + (b + sep + c);
  }

  /** The join of a list that starts with `head` starts with `head`. */
  lemma JoinStartsWithHead(parts: seq<string>, sep: string)
    requires parts != []
    ensures StartsWith(Join(parts, sep), parts[0])
  {
    if |parts| > 1 {
      var j := Join(parts, sep);
      assert j == parts[0] + (sep + Join(parts[1..], sep));
      assert j[..|parts[0]|] == parts[0];
    }
  }

  lemma EndsWithTail(a: string, b: string)
    ensures EndsWith(a + b, b)
  {
    assert (a + b)[|a + b| - |b|..] == b;
  }

  lemma StartsWithHead(a: string, b: string)
    ensures StartsWith(a + b, a)
  {
    assert (a + b)[..|a|] == a;
  }

  /** A string that opens with a line break starts with none of the markers. */
  lemma NewlineStartsNoMarker(s: string, marker: string)
    requires |s| > 0 && s[0] == '\n' && |marker| > 0 && marker[0] != '\n'
    ensures !StartsWith(s, marker)
  {
    if |marker| <= |s| {
      assert s[..|marker|][0] == s[0];
    }
  }

  /** A three-part join with separator `"\n\n"` and an empty first part opens with a line break. */
  lemma EmptyHeadJoin(b: string, c: string)
    ensures var j := Join(["", b, c], "\n\n"); |j| > 0 && j[0] == '\n'
  {
    JoinThree("", b, c, "\n\n");
    assert Join(["", b, c], "\n\n") == "\n\n" + (b + "\n\n" + c);
  }

  /**
   * A prompt joined from a system section, a history section and a closing
   * marker opens with `marker` exactly when the system section has lines and
   * its first line is `marker`.
   */
  lemma JoinedPromptOpens(sysLines: seq<string>, hist: string, last: string, marker: string)
    requires |marker| > 0 && marker[0] != '\n'
    requires sysLines == [] || sysLines[0] == marker
    ensures StartsWith(Join([Join(sysLines, "\n"), hist, last], "\n\n"), marker) <==> sysLines != []
  {
    var sys := Join(sysLines, "\n");
    JoinThree(sys, hist, last, "\n\n");
    if sysLines != [] {
      JoinStartsWithHead(sysLines, "\n");
      assert Join([sys, hist, last], "\n\n") == sys + ("\n\n" + hist + "\n\n" + last);
      StartsWithHead(sys, "\n\n" + hist + "\n\n" + last);
    } else {
      EmptyHeadJoin(hist, last);
      NewlineStartsNoMarker(Join([sys, hist, last], "\n\n"), marker);
    }
  }

  /** The Qwen prompt always ends with the assistant marker. */
  lemma QwenEndsWithAssistant(parts: seq<string>, history: seq<Turn>)
    ensures EndsWith(QwenPrompt(parts, history), QwenAssistant)
  {
    var sys := Join(QwenSystem(parts), "\n");
    var hist := Join(QwenTurns(history), "\n");
    JoinThree(sys, hist, QwenAssistant, "\n\n");
    EndsWithTail(sys + "\n\n" + hist + "\n\n", QwenAssistant);
  }

  /** The Qwen prompt opens with the system marker exactly when the system part is non-empty. */
  lemma QwenStartsWithSystem(parts: seq<string>, history: seq<Turn>)
    ensures StartsWith(QwenPrompt(parts, history), QwenSystemOpen) <==> |parts| > 0
  {
    assert QwenSystem(parts) == [] <==> |parts| == 0;
    JoinedPromptOpens(QwenSystem(parts), Join(QwenTurns(history), "\n"), QwenAssistant, QwenSystemOpen);
  }


  /** A non-empty system part is closed by the end marker. */
  lemma QwenSystemCloses(parts: seq<string>)
    requires |parts| > 0
    ensures EndsWith(Join(QwenSystem(parts), "\n"), QwenClose)
  {
    assert QwenSystem(parts) == ([QwenSystemOpen] + parts) + [QwenClose];
    JoinAppend([QwenSystemOpen] + parts, QwenClose, "\n");
    EndsWithTail(Join([QwenSystemOpen] + parts, "\n") + "\n", QwenClose);
  }

  /** The plain prompt always ends with the answer heading. */
  lemma PlainEndsWithAnswer(parts: seq<string>, history: seq<Turn>)
    ensures EndsWith(PlainPrompt(parts, history), PlainAnswer)
  {
    var sys := Join(PlainSystem(parts), "\n");
    var hist := Join(PlainHistorySection(history), "\n");
    JoinThree(sys, hist, PlainAnswer, "\n\n");
    EndsWithTail(sys + "\n\n" + hist + "\n\n", PlainAnswer);
  }

  /** The plain prompt opens with the role heading exactly when the system part is non-empty. */
  lemma PlainStartsWithRole(parts: seq<string>, history: seq<Turn>)
    ensures StartsWith(PlainPrompt(parts, history), PlainRole) <==> |parts| > 0
  {
    assert PlainSystem(parts) == [] <==> |parts| == 0;
    JoinedPromptOpens(PlainSystem(parts), Join(PlainHistorySection(history), "\n"), PlainAnswer, PlainRole);
  }


  /**
   * The history section of the plain prompt is empty exactly when the
   * history is, and otherwise opens with the history heading.
   */
  lemma PlainHistoryHeading(history: seq<Turn>)
    ensures Join(PlainHistorySection(history), "\n") == "" <==> history == []
    ensures history != [] ==> StartsWith(Join(PlainHistorySection(history), "\n"), PlainHistory)
  {
    if history != [] {
      JoinStartsWithHead(PlainHistorySection(history), "\n");
    }
  }

  /** The builder: role and article are fixed by the constructor, as is the default history. */
  class PromptBuilder {
    const role: string
    const article: string
    const chatHistory: seq<Turn>

    /**
     * `new PromptBuilder(role, article, chatHistory)`: role and article are
     * trimmed, a missing one becoming `''`; when `role` names an existing
     * file, `roleFile` is that file's text and replaces the role untrimmed.
     */
    constructor (role: Option<string>, article: Option<string>, chatHistory: seq<Turn>, roleFile: Option<string>)
      ensures roleFile.Some? ==> this.role == roleFile.value
      ensures roleFile.None? ==> this.role == (if role.Some? then Trim(role.value) else "")
      ensures this.article == (if article.Some? then Trim(article.value) else "")
      ensures this.chatHistory == chatHistory
    {
      var r := if role.Some? then Trim(role.value) else "";
      this.article := if article.Some? then Trim(article.value) else "";
      this.chatHistory := chatHistory;
      this.role := if roleFile.Some? then roleFile.value else r;
    }

    /** `article || this.article`. */
    function ArticleArg(a: Option<string>): (r: string)
      ensures TruthyStr(a) ==> r == a.value
      ensures !TruthyStr(a) ==> r == article
    {
      if TruthyStr(a) then a.value else article
    }

    /** `chatHistory || this.chatHistory`: an empty array is truthy and is kept. */
    function HistoryArg(h: Option<seq<Turn>>): (r: seq<Turn>)
      ensures h.Some? ==> r == h.value
      ensures h.None? ==> r == chatHistory
    {
      if h.Some? then h.value else chatHistory
    }

    /** `buildSystemPart(article)`, pushing onto a list. */
    method BuildSystemPart(a: string) returns (systemParts: seq<string>)
      ensures systemParts == SystemParts(role, a)
    {
      systemParts := [];
      if role != "" {
        systemParts := systemParts + [role];
      }
      if a != "" {
        if |systemParts| > 0 {
          systemParts := systemParts + [Separator];
        }
        systemParts := systemParts + [ArticleBlock(a)];
      }
    }

    /** `getChatMLPrompt(article, chatHistory)`. */
    method GetChatMLPrompt(a: Option<string>, h: Option<seq<Turn>>) returns (messages: seq<Message>)
      ensures messages == ChatML(SystemParts(role, ArticleArg(a)), HistoryArg(h))
    {
      var art := ArticleArg(a);
      var history := HistoryArg(h);
      messages := [];
      var systemParts := BuildSystemPart(art);
      if |systemParts| > 0 {
        messages := messages + [Message("system", Join(systemParts, "\n\n"))];
      }
      ghost var head := messages;
      assert head == SystemMessages(systemParts);
      var i := 0;
      while i < |history|
        invariant 0 <= i <= |history|
        invariant messages == head + HistoryMessages(history[..i])
      {
        messages := messages + [HistoryMessage(history[i])];
        HistoryMessagesSnoc(history, i);
        i := i + 1;
      }
      assert history[..i] == history;
    }

    /** `getQwenPrompt(article, chatHistory)`. */
    function GetQwenPrompt(a: Option<string>, h: Option<seq<Turn>>): (r: string)
      ensures EndsWith(r, QwenAssistant)
      ensures StartsWith(r, QwenSystemOpen) <==> role != "" || ArticleArg(a) != ""
    {
      var parts := SystemParts(role, ArticleArg(a));
      QwenEndsWithAssistant(parts, HistoryArg(h));
      QwenStartsWithSystem(parts, HistoryArg(h));
      SystemPartsCases(role, ArticleArg(a));
      QwenPrompt(parts, HistoryArg(h))
    }

    /** `getPlainPrompt(article, chatHistory)`. */
    function GetPlainPrompt(a: Option<string>, h: Option<seq<Turn>>): (r: string)
      ensures EndsWith(r, PlainAnswer)
      ensures StartsWith(r, PlainRole) <==> role != "" || ArticleArg(a) != ""
    {
      var parts := SystemParts(role, ArticleArg(a));
      PlainEndsWithAnswer(parts, HistoryArg(h));
      PlainStartsWithRole(parts, HistoryArg(h));
      SystemPartsCases(role, ArticleArg(a));
      PlainPrompt(parts, HistoryArg(h))
    }
  }
}
