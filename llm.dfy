/**
 * The knowledge-base answering handler (`src/handlers/messages/llm.js`):
 * its one-time `init` guarded by two module flags, and the decision tree of
 * its default export — no text, failed query, no hits, then a reply from the
 * language model or, when that fails, from the best article itself, with a
 * footer built from the article's metadata.
 *
 * The engine and the session manager are the modelled ones; the language
 * model's `generateReply` is an input that returns a text or fails.
 */
module Llm {
  import opened Js
  import opened Memory
  import opened Affine
  import opened Engine
  import opened Session

  const Priority: int := 0
  const Enabled := false

  const QueryFailed := "Gagal mencari jawaban dari basis pengetahuan."
  const NoAnswer := "Maaf, saya tidak menemukan jawaban."
  const ReadMore := "\n\nBaca lebih lanjut: \n"
  const RequestForm := "\nLink form request: \n"

  /** How a call of the handler ends: it returns a boolean, or it throws. */
  datatype Ending = Returned(handled: bool) | Threw

  /** How the handler ends, and the texts it queued with `queueReply`, in order. */
  datatype Outcome = Outcome(ending: Ending, replies: seq<string>)

  /** The footer appended to every answer built from an article. */
  function Footer(metadata: map<string, JsValue>): string
  {
    (if Get(metadata, "public").Truthy() then ReadMore + ToStr(Get(metadata, "url")) + "\n" else "")
    + (if Get(metadata, "request").Truthy() then RequestForm + ToStr(Get(metadata, "request")) + "\n" else "")
  }

  /**
   * The handler as a function of the text, how the query ended, what
   * `getChatHistory` yields (`None` where it throws) and the language model.
   */
  function Answer(text: Option<string>, hits: Result<seq<ScoredDoc>>, history: Option<seq<HistoryEntry>>,
                  generate: (seq<HistoryEntry>, string) -> Option<string>): Outcome
  {
    if !TruthyStr(text) then Outcome(Returned(false), [])
    else if hits.Err? then Outcome(Returned(true), [QueryFailed])
    else if |hits.value| == 0 then Outcome(Returned(true), [NoAnswer])
    else
      var article := hits.value[0].doc;
      var content := Trim(article.content);
      var footer := Footer(article.metadata);
      if history.None? then Outcome(Threw, [])
      else
        match generate(history.value, content)
        case Some(output) => Outcome(Returned(true), [output + footer])
        case None => Outcome(Returned(true), [content + footer])
  }

  /** Without text the handler declines at once: no query, no reply. */
  lemma NoTextDeclines(hits: Result<seq<ScoredDoc>>, history: Option<seq<HistoryEntry>>,
                       generate: (seq<HistoryEntry>, string) -> Option<string>)
    ensures Answer(None, hits, history, generate) == Outcome(Returned(false), [])
    ensures Answer(Some(""), hits, history, generate) == Outcome(Returned(false), [])
  {
  }

  /**
   * With text, the handler queues exactly one reply and returns true, unless
   * reading the chat history throws, which happens only after a query with
   * hits and leaves nothing queued.
   */
  lemma OneReplyPerText(text: Option<string>, hits: Result<seq<ScoredDoc>>, history: Option<seq<HistoryEntry>>,
                        generate: (seq<HistoryEntry>, string) -> Option<string>)
    requires TruthyStr(text)
    ensures Answer(text, hits, history, generate).ending == Threw <==> hits.Ok? && |hits.value| > 0 && history.None?
    ensures Answer(text, hits, history, generate).ending != Threw ==>
      Answer(text, hits, history, generate).ending == Returned(true) && |Answer(text, hits, history, generate).replies| == 1
    ensures hits.Err? ==> Answer(text, hits, history, generate).replies == [QueryFailed]
    ensures hits.Ok? && hits.value == [] ==> Answer(text, hits, history, generate).replies == [NoAnswer]
  {
  }

  /**
   * Only the best hit matters: its content, trimmed, goes to the model with
   * the unmodified history; the reply is the model's output, or that content
   * when the model fails, followed by the footer of its metadata.
   */
  lemma ReplyFromBestHit(text: Option<string>, hits: seq<ScoredDoc>, history: seq<HistoryEntry>,
                         generate: (seq<HistoryEntry>, string) -> Option<string>)
    requires TruthyStr(text) && hits != []
    ensures var best := hits[0].doc;
      var content := Trim(best.content);
      var out := generate(history, content);
      Answer(text, Ok(hits), Some(history), generate).replies
        == [(if out.Some? then out.value else content) + Footer(best.metadata)]
    ensures forall others: seq<ScoredDoc> :: others != [] && others[0] == hits[0] ==>
      Answer(text, Ok(others), Some(history), generate) == Answer(text, Ok(hits), Some(history), generate)
  {
  }

  /**
   * The read-more part is present exactly when `public` is truthy and comes
   * first; the request-form part is present when `request` is truthy and
   * comes last; the footer is empty when neither is set.
   */
  lemma FooterParts(metadata: map<string, JsValue>)
    ensures StartsWith(Footer(metadata), ReadMore) <==> Get(metadata, "public").Truthy()
    ensures Get(metadata, "request").Truthy() ==>
      EndsWith(Footer(metadata), RequestForm + ToStr(Get(metadata, "request")) + "\n")
    ensures Footer(metadata) == "" <==> !Get(metadata, "public").Truthy() && !Get(metadata, "request").Truthy()
  {
    var f := Footer(metadata);
    if Get(metadata, "public").Truthy() {
      var a := ReadMore + ToStr(Get(metadata, "url")) + "\n";
      var b := if Get(metadata, "request").Truthy() then RequestForm + ToStr(Get(metadata, "request")) + "\n" else "";
      assert f == a + b;
      assert a[..|ReadMore|] == ReadMore;
      assert (a + b)[..|ReadMore|] == a[..|ReadMore|];
    } else if Get(metadata, "request").Truthy() {
      assert f[1] == 'L';
    }
    if Get(metadata, "request").Truthy() {
      var tail := RequestForm + ToStr(Get(metadata, "request")) + "\n";
      assert f[|f| - |tail|..] == tail;
    }
  }

  /** The footer as the handler builds it, one `+=` at a time. */
  method BuildFooter(metadata: map<string, JsValue>) returns (footer: string)
    ensures footer == Footer(metadata)
  {
    footer := "";
    if Get(metadata, "public").Truthy() {
      footer := footer + (ReadMore + ToStr(Get(metadata, "url")) + "\n");
    }
    assert footer == if Get(metadata, "public").Truthy() then ReadMore + ToStr(Get(metadata, "url")) + "\n" else "";
    if Get(metadata, "request").Truthy() {
      footer := footer + (RequestForm + ToStr(Get(metadata, "request")) + "\n");
    }
  }

  /** The handler module's state: the shared engine and the two flags `init` consults. */
  class RagHandler {
    const engine: KnowledgeBaseEngine
    var initialized: bool
    var initializing: bool

    constructor (engine: KnowledgeBaseEngine)
      ensures this.engine == engine && !initialized && !initializing
    {
      this.engine := engine;
      initialized := false;
      initializing := false;
    }

    /**
     * `init()`: start the engine once. When `engine.init()` fails, the catch
     * block calls a `queueReply` that is not in scope, so `init` rejects with
     * a ReferenceError and `initializing` is never reset.
     */
    method Init(docs: Result<seq<string>>,
                propsOf: string -> Result<Option<map<string, JsValue>>>,
                parseKeys: JsValue -> Result<seq<string>>)
      returns (engineStarted: bool, threw: bool)
      modifies this, engine
      ensures engineStarted <==> !old(initialized) && !old(initializing)
      ensures threw <==> engineStarted && docs.Err?
      ensures initialized == (old(initialized) || (engineStarted && docs.Ok?))
      ensures initializing == (old(initializing) || threw)
      ensures !engineStarted ==>
        engine.points == old(engine.points) && engine.upserts == old(engine.upserts) && engine.modelLoaded == old(engine.modelLoaded)
      ensures engineStarted ==> engine.modelLoaded && engine.points == old(engine.points) && engine.upserts == old(engine.upserts)
    {
      engineStarted := false;
      threw := false;
      if !initialized && !initializing {
        initializing := true;
        engineStarted := true;
        var error := engine.Init(false, docs, propsOf, parseKeys);
        if error.Some? {
          threw := true;
          return;
        }
        initialized := true;
        initializing := false;
      }
    }

    /**
     * The default export, given what the search returns, how document fetches
     * end and how the language model answers; `sessions` serves the chat
     * history.
     */
    method Handle(text: Option<string>, senderId: string, groupId: Option<string>,
                  results: seq<SearchHit>, fetch: string -> Result<ParsedDoc>,
                  generate: (seq<HistoryEntry>, string) -> Option<string>,
                  sessions: ChatSessionManager, now: int)
      returns (outcome: Outcome)
      modifies sessions.client
      ensures var hits := if engine.modelLoaded then QueryHits(results, fetch, DefaultThreshold) else Err("");
        var history := ChatHistoryOf(old(sessions.client.Snap()), senderId, groupId, now);
        outcome == Answer(text, hits, history, generate)
      ensures var readsHistory := TruthyStr(text) && engine.modelLoaded
          && QueryHits(results, fetch, DefaultThreshold).Ok? && |QueryHits(results, fetch, DefaultThreshold).value| > 0;
        (readsHistory ==> sessions.client.Snap() == Swept(old(sessions.client.Snap()), HistoryKey(SessionKey(senderId, groupId)), now))
        && (!readsHistory ==> sessions.client.Snap() == old(sessions.client.Snap()))
    {
      if !TruthyStr(text) {
        return Outcome(Returned(false), []);
      }
      var hits := engine.Query(results, fetch, DefaultThreshold);
      if hits.Err? {
        return Outcome(Returned(true), [QueryFailed]);
      }
      if |hits.value| == 0 {
        return Outcome(Returned(true), [NoAnswer]);
      }
      var article := hits.value[0].doc;
      var articleContent := Trim(article.content);
      var footer := BuildFooter(article.metadata);
      var chatHistory := sessions.GetChatHistory(senderId, groupId, now);
      if chatHistory.None? {
        return Outcome(Threw, []);
      }
      var output := generate(chatHistory.value, articleContent);
      if output.Some? {
        outcome := Outcome(Returned(true), [output.value + footer]);
      } else {
        outcome := Outcome(Returned(true), [articleContent + footer]);
      }
    }
  }
}
