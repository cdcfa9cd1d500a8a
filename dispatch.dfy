/**
 * The `messages.upsert` handler of `src/handlers/messages.js`: it loads the
 * message handlers once (admission, then a stable sort by descending
 * priority) and, for each upsert of type `notify`, walks the messages in
 * order, skips those without text, sent by the bot itself or coming from a
 * newsletter, marks each remaining one read and offers it to the handlers
 * until one reports it handled.
 *
 * Handlers are abstract: `handled(name, i)` is what the handler loaded from
 * `name` returns for message `i` of the upsert. What the dispatcher does is
 * recorded as a trace of effects.
 */
module Dispatch {
  import opened Js
  import opened Wa
  import opened Plugins

  /** `{ fn, priority }`; the handler is known by its file name. */
  datatype LoadedHandler = LoadedHandler(name: string, priority: int)

  /** `messages.js` admits a file passing the lists and the enable check whose default export is a function and whose priority is a number. */
  predicate AdmitMessageHandler(fileName: string, m: Exports, blacklist: seq<string>, whitelist: seq<string>)
  {
    PassesLists(fileName, blacklist, whitelist) && EnabledOrWhitelisted(fileName, m, whitelist)
    && m.defaultIsFunction && m.priority.Some?
  }

  /** The handler a directory entry contributes, if any. */
  function LoadOne(file: string, exportsOf: string -> Exports, blacklist: seq<string>, whitelist: seq<string>): seq<LoadedHandler>
  {
    var m := exportsOf(file);
    if EndsWith(file, ".js") && AdmitMessageHandler(FileName(file), m, blacklist, whitelist)
    then [LoadedHandler(FileName(file), m.priority.value)]
    else []
  }

  /** The handlers pushed by the loading loop, in directory order. */
  function Admitted(files: seq<string>, exportsOf: string -> Exports, blacklist: seq<string>, whitelist: seq<string>): (hs: seq<LoadedHandler>)
    ensures |hs| <= |files|
    decreases |files|
  {
    if files == [] then []
    else Admitted(files[..|files| - 1], exportsOf, blacklist, whitelist)
         + LoadOne(files[|files| - 1], exportsOf, blacklist, whitelist)
  }

  lemma AdmittedStep(files: seq<string>, n: nat, exportsOf: string -> Exports, blacklist: seq<string>, whitelist: seq<string>)
    requires n < |files|
    ensures Admitted(files[..n + 1], exportsOf, blacklist, whitelist)
      == Admitted(files[..n], exportsOf, blacklist, whitelist) + LoadOne(files[n], exportsOf, blacklist, whitelist)
  {
    assert files[..n + 1][..n] == files[..n];
  }

  /**
   * Exactly the admitted `.js` files are loaded: every loaded handler comes
   * from such a file (so it is never blacklisted and, under a non-empty
   * whitelist, always listed), and every such file is loaded.
   */
  lemma {:induction false} AdmittedExactly(files: seq<string>, exportsOf: string -> Exports, blacklist: seq<string>, whitelist: seq<string>)
    ensures forall h :: h in Admitted(files, exportsOf, blacklist, whitelist) ==>
      exists k :: 0 <= k < |files| && EndsWith(files[k], ".js") && FileName(files[k]) == h.name
        && AdmitMessageHandler(h.name, exportsOf(files[k]), blacklist, whitelist)
        && h.priority == exportsOf(files[k]).priority.value
    ensures forall k :: (0 <= k < |files| && EndsWith(files[k], ".js")
        && AdmitMessageHandler(FileName(files[k]), exportsOf(files[k]), blacklist, whitelist)) ==>
      LoadedHandler(FileName(files[k]), exportsOf(files[k]).priority.value) in Admitted(files, exportsOf, blacklist, whitelist)
    decreases |files|
  {
    if files != [] {
      var init := files[..|files| - 1];
      AdmittedExactly(init, exportsOf, blacklist, whitelist);
      forall h | h in Admitted(files, exportsOf, blacklist, whitelist)
        ensures exists k :: (0 <= k < |files| && EndsWith(files[k], ".js") && FileName(files[k]) == h.name
          && AdmitMessageHandler(h.name, exportsOf(files[k]), blacklist, whitelist)
          && h.priority == exportsOf(files[k]).priority.value)
      {
        if h in Admitted(init, exportsOf, blacklist, whitelist) {
          var k :| 0 <= k < |init| && EndsWith(init[k], ".js") && FileName(init[k]) == h.name
            && AdmitMessageHandler(h.name, exportsOf(init[k]), blacklist, whitelist)
            && h.priority == exportsOf(init[k]).priority.value;
          assert files[k] == init[k];
        } else {
          assert files[|files| - 1] == files[|files| - 1];
        }
      }
      forall k | 0 <= k < |files| && EndsWith(files[k], ".js")
          && AdmitMessageHandler(FileName(files[k]), exportsOf(files[k]), blacklist, whitelist)
        ensures LoadedHandler(FileName(files[k]), exportsOf(files[k]).priority.value) in Admitted(files, exportsOf, blacklist, whitelist)
      {
        if k < |files| - 1 {
          assert files[k] == init[k];
        }
      }
    }
  }

  /** A blacklisted name is never loaded, and a non-empty whitelist keeps out every unlisted name. */
  lemma LoadedRespectLists(files: seq<string>, exportsOf: string -> Exports, blacklist: seq<string>, whitelist: seq<string>)
    ensures forall h :: h in Admitted(files, exportsOf, blacklist, whitelist) ==>
      h.name !in blacklist && (|whitelist| > 0 ==> h.name in whitelist)
  {
    AdmittedExactly(files, exportsOf, blacklist, whitelist);
  }

  // ---------------------------------------------------------------------------
  // `messageHandlers.sort((a, b) => b.priority - a.priority)`, a stable sort

  predicate SortedDesc(hs: seq<LoadedHandler>)
  {
    forall i, j :: 0 <= i < j < |hs| ==> hs[i].priority >= hs[j].priority
  }

  /** The handlers of one priority, in their order. */
  function WithPriority(hs: seq<LoadedHandler>, p: int): seq<LoadedHandler>
  {
    if hs == [] then []
    else (if hs[0].priority == p then [hs[0]] else []) + WithPriority(hs[1..], p)
  }

  lemma WithPrioritySnoc(hs: seq<LoadedHandler>, h: LoadedHandler, p: int)
    ensures WithPriority(hs + [h], p) == WithPriority(hs, p) + (if h.priority == p then [h] else [])
  {
    if hs != [] {
      assert (hs + [h])[1..] == hs[1..] + [h];
      WithPrioritySnoc(hs[1..], h, p);
    }
  }

  /** Places `h` after every handler of at least its priority. */
  function Insert(h: LoadedHandler, hs: seq<LoadedHandler>): seq<LoadedHandler>
  {
    if hs == [] || hs[0].priority < h.priority then [h] + hs
    else [hs[0]] + Insert(h, hs[1..])
  }

  lemma {:induction false} InsertMultiset(h: LoadedHandler, hs: seq<LoadedHandler>)
    ensures multiset(Insert(h, hs)) == multiset(hs) + multiset{h}
  {
    if !(hs == [] || hs[0].priority < h.priority) {
      InsertMultiset(h, hs[1..]);
      assert hs == [hs[0]] + hs[1..];
    }
  }

  lemma {:induction false} InsertSorted(h: LoadedHandler, hs: seq<LoadedHandler>)
    requires SortedDesc(hs)
    ensures SortedDesc(Insert(h, hs))
  {
    if !(hs == [] || hs[0].priority < h.priority) {
      InsertSorted(h, hs[1..]);
      InsertMultiset(h, hs[1..]);
      var rest := Insert(h, hs[1..]);
      forall x | x in rest ensures hs[0].priority >= x.priority {
        assert x in multiset(rest);
        if x != h {
          assert x in multiset(hs[1..]);
          assert x in hs[1..];
        }
      }
    }
  }

  lemma {:induction false} InsertWithPriority(h: LoadedHandler, hs: seq<LoadedHandler>, p: int)
    requires SortedDesc(hs)
    ensures WithPriority(Insert(h, hs), p) == WithPriority(hs, p) + (if h.priority == p then [h] else [])
  {
    var r := Insert(h, hs);
    if hs == [] || hs[0].priority < h.priority {
      assert r[1..] == hs;
      if h.priority == p {
        NoneOfPriority(hs, p);
      }
    } else {
      InsertWithPriority(h, hs[1..], p);
      assert r[1..] == Insert(h, hs[1..]);
    }
  }

  /** In a list sorted by descending priority that starts below `p`, nothing has priority `p`. */
  lemma NoneOfPriority(hs: seq<LoadedHandler>, p: int)
    requires SortedDesc(hs)
    requires hs == [] || hs[0].priority < p
    ensures WithPriority(hs, p) == []
  {
    if hs != [] {
      NoneOfPriority(hs[1..], p);
    }
  }

  /** Insertion sort taking the handlers in load order. */
  function SortByPriority(hs: seq<LoadedHandler>): seq<LoadedHandler>
    decreases |hs|
  {
    if hs == [] then []
    else Insert(hs[|hs| - 1], SortByPriority(hs[..|hs| - 1]))
  }

  /**
   * The sort orders by descending priority, is a permutation, and is stable:
   * for every priority, the handlers of that priority keep their load order.
   */
  lemma {:induction false} SortSorted(hs: seq<LoadedHandler>)
    ensures SortedDesc(SortByPriority(hs))
    decreases |hs|
  {
    if hs != [] {
      SortSorted(hs[..|hs| - 1]);
      InsertSorted(hs[|hs| - 1], SortByPriority(hs[..|hs| - 1]));
    }
  }

  lemma {:induction false} SortPermutes(hs: seq<LoadedHandler>)
    ensures multiset(SortByPriority(hs)) == multiset(hs)
    decreases |hs|
  {
    if hs != [] {
      var init, last := hs[..|hs| - 1], hs[|hs| - 1];
      SortPermutes(init);
      InsertMultiset(last, SortByPriority(init));
      assert hs == init + [last];
    }
  }

  lemma {:induction false} SortStable(hs: seq<LoadedHandler>, p: int)
    ensures WithPriority(SortByPriority(hs), p) == WithPriority(hs, p)
    decreases |hs|
  {
    if hs != [] {
      var init, last := hs[..|hs| - 1], hs[|hs| - 1];
      SortStable(init, p);
      SortSorted(init);
      InsertWithPriority(last, SortByPriority(init), p);
      assert hs == init + [last];
      WithPrioritySnoc(init, last, p);
    }
  }

  lemma SortByPrioritySpec(hs: seq<LoadedHandler>)
    ensures SortedDesc(SortByPriority(hs))
    ensures multiset(SortByPriority(hs)) == multiset(hs)
    ensures forall p :: WithPriority(SortByPriority(hs), p) == WithPriority(hs, p)
  {
    SortSorted(hs);
    SortPermutes(hs);
    forall p ensures WithPriority(SortByPriority(hs), p) == WithPriority(hs, p) {
      SortStable(hs, p);
    }
  }

  // ---------------------------------------------------------------------------
  // The dispatch loop

  datatype Upsert = Upsert(kind: string, messages: seq<WAMessage>)

  /** `sock.readMessages([msg.key])` for message `index`, or one handler call on it. */
  datatype Effect = MarkRead(index: nat) | Invoke(handler: string, index: nat)

  /** No text, sent by the bot, or from a newsletter: the message is passed over. */
  predicate Skipped(msg: WAMessage)
  {
    !TruthyStr(TextOf(msg)) || msg.key.fromMe || IsJidNewsletter(msg.key.remoteJid)
  }

  function Invokes(hs: seq<LoadedHandler>, i: nat): (r: seq<Effect>)
    ensures |r| == |hs| && forall k :: 0 <= k < |r| ==> r[k] == Invoke(hs[k].name, i)
  {
    seq(|hs|, k requires 0 <= k < |hs| => Invoke(hs[k].name, i))
  }

  /** The handler chain for message `i`: call in order, stop after the first that handles it. */
  function Chain(hs: seq<LoadedHandler>, i: nat, handled: (string, nat) -> bool): (calls: seq<Effect>)
    ensures |calls| <= |hs| && calls == Invokes(hs[..|calls|], i)
    ensures forall k :: 0 <= k < |calls| - 1 ==> !handled(hs[k].name, i)
    ensures |calls| < |hs| ==> |calls| > 0 && handled(hs[|calls| - 1].name, i)
    ensures hs != [] ==> |calls| > 0
  {
    if hs == [] then []
    else if handled(hs[0].name, i) then [Invoke(hs[0].name, i)]
    else
      var rest := Chain(hs[1..], i, handled);
      assert hs[1..][..|rest|] == hs[1..|rest| + 1];
      [Invoke(hs[0].name, i)] + rest
  }

  /** The chain is exactly the calls up to the first handler that handles the message, or all of them. */
  lemma ChainStopsAt(hs: seq<LoadedHandler>, i: nat, handled: (string, nat) -> bool, j: nat)
    requires j <= |hs| && (hs != [] ==> j > 0)
    requires forall k :: 0 <= k < j - 1 ==> !handled(hs[k].name, i)
    requires j == |hs| || handled(hs[j - 1].name, i)
    ensures Chain(hs, i, handled) == Invokes(hs[..j], i)
  {
  }

  function MessageEffects(hs: seq<LoadedHandler>, msgs: seq<WAMessage>, i: nat, handled: (string, nat) -> bool): seq<Effect>
    requires i < |msgs|
  {
    if Skipped(msgs[i]) then [] else [MarkRead(i)] + Chain(hs, i, handled)
  }

  /** The effects of each message of the upsert, message by message. */
  function Blocks(hs: seq<LoadedHandler>, msgs: seq<WAMessage>, handled: (string, nat) -> bool): (bs: seq<seq<Effect>>)
    ensures |bs| == |msgs| && forall i :: 0 <= i < |msgs| ==> bs[i] == MessageEffects(hs, msgs, i, handled)
  {
    seq(|msgs|, i requires 0 <= i < |msgs| => MessageEffects(hs, msgs, i, handled))
  }

  /** The blocks one after the other. */
  function Flatten(bs: seq<seq<Effect>>): seq<Effect>
  {
    if bs == [] then [] else Flatten(bs[..|bs| - 1]) + bs[|bs| - 1]
  }

  /** Everything the dispatcher does for one upsert. */
  function DispatchTrace(hs: seq<LoadedHandler>, upsert: Upsert, handled: (string, nat) -> bool): seq<Effect>
  {
    if upsert.kind != "notify" then [] else Flatten(Blocks(hs, upsert.messages, handled))
  }

  /** Block `k` only holds effects on message `k`. */
  predicate Tagged(bs: seq<seq<Effect>>)
  {
    forall k :: 0 <= k < |bs| ==> forall e: Effect :: e in bs[k] ==> e.index == k
  }

  lemma BlocksTagged(hs: seq<LoadedHandler>, msgs: seq<WAMessage>, handled: (string, nat) -> bool)
    ensures Tagged(Blocks(hs, msgs, handled))
  {
    var bs := Blocks(hs, msgs, handled);
    forall k | 0 <= k < |bs| ensures forall e: Effect :: e in bs[k] ==> e.index == k {
      assert bs[k] == MessageEffects(hs, msgs, k, handled);
    }
  }

  lemma TaggedPrefix(bs: seq<seq<Effect>>, m: nat)
    requires Tagged(bs) && m <= |bs|
    ensures Tagged(bs[..m])
  {
    forall k | 0 <= k < m ensures forall e: Effect :: e in bs[..m][k] ==> e.index == k {
      assert bs[..m][k] == bs[k];
    }
  }

  lemma FlattenStep(bs: seq<seq<Effect>>, m: nat)
    requires m < |bs|
    ensures Flatten(bs[..m + 1]) == Flatten(bs[..m]) + bs[m]
  {
    assert bs[..m + 1][..m] == bs[..m];
  }

  /** The flattened blocks concern only indexes below their number. */
  lemma {:induction false} FlattenBelow(bs: seq<seq<Effect>>)
    requires Tagged(bs)
    ensures forall e: Effect :: e in Flatten(bs) ==> e.index < |bs|
    decreases |bs|
  {
    if bs != [] {
      var init := bs[..|bs| - 1];
      TaggedPrefix(bs, |bs| - 1);
      FlattenBelow(init);
    }
  }

  /** Taking more blocks only extends the flattened sequence. */
  lemma {:induction false} FlattenPrefix(bs: seq<seq<Effect>>, m: nat)
    requires m <= |bs|
    ensures Flatten(bs[..m]) <= Flatten(bs)
    decreases |bs|
  {
    if m < |bs| {
      var init := bs[..|bs| - 1];
      FlattenPrefix(init, m);
      assert init[..m] == bs[..m];
    } else {
      assert bs[..m] == bs;
    }
  }

  /** Beyond the first `m` blocks, everything concerns index `m` or later. */
  lemma {:induction false} FlattenAfter(bs: seq<seq<Effect>>, m: nat)
    requires Tagged(bs) && m <= |bs|
    ensures var t := Flatten(bs);
      forall a :: |Flatten(bs[..m])| <= a < |t| ==> t[a].index >= m
    decreases |bs|
  {
    if m < |bs| {
      var init := bs[..|bs| - 1];
      var last := bs[|bs| - 1];
      TaggedPrefix(bs, |bs| - 1);
      FlattenAfter(init, m);
      FlattenPrefix(init, m);
      assert init[..m] == bs[..m];
      var t := Flatten(bs);
      assert t == Flatten(init) + last;
      forall a | |Flatten(bs[..m])| <= a < |t| ensures t[a].index >= m {
        if a >= |Flatten(init)| {
          assert t[a] == last[a - |Flatten(init)|];
          assert t[a] in last;
        }
      }
    } else {
      assert bs[..m] == bs;
    }
  }

  /** The indexes in the flattened blocks never go back. */
  lemma {:induction false} FlattenInOrder(bs: seq<seq<Effect>>)
    requires Tagged(bs)
    ensures forall a, b :: 0 <= a < b < |Flatten(bs)| ==> Flatten(bs)[a].index <= Flatten(bs)[b].index
    decreases |bs|
  {
    if bs != [] {
      var init := bs[..|bs| - 1];
      var last := bs[|bs| - 1];
      TaggedPrefix(bs, |bs| - 1);
      FlattenInOrder(init);
      FlattenBelow(init);
      var prev := Flatten(init);
      var t := prev + last;
      forall a, b | 0 <= a < b < |t| ensures t[a].index <= t[b].index {
        if b >= |prev| {
          assert t[b] == last[b - |prev|] && t[b] in last && t[b].index == |bs| - 1;
          if a >= |prev| {
            assert t[a] == last[a - |prev|] && t[a] in last && t[a].index == |bs| - 1;
          } else {
            assert t[a] == prev[a] && t[a] in prev && t[a].index < |bs| - 1;
          }
        } else {
          assert t[a] == prev[a] && t[b] == prev[b];
        }
      }
    }
  }

  /** Messages are handled one at a time in upsert order. */
  lemma TraceInUpsertOrder(hs: seq<LoadedHandler>, upsert: Upsert, handled: (string, nat) -> bool)
    ensures var t := DispatchTrace(hs, upsert, handled);
      forall a, b :: 0 <= a < b < |t| ==> t[a].index <= t[b].index
  {
    if upsert.kind == "notify" {
      var bs := Blocks(hs, upsert.messages, handled);
      BlocksTagged(hs, upsert.messages, handled);
      FlattenInOrder(bs);
      assert DispatchTrace(hs, upsert, handled) == Flatten(bs);
    }
  }

  /**
   * The flattened blocks split at block `i`: first the earlier blocks, which
   * concern earlier indexes, then block `i`, then only later indexes.
   */
  lemma FlattenAround(bs: seq<seq<Effect>>, i: nat) returns (after: seq<Effect>)
    requires Tagged(bs) && i < |bs|
    ensures Flatten(bs) == Flatten(bs[..i]) + bs[i] + after
    ensures forall e: Effect :: e in Flatten(bs[..i]) ==> e.index < i
    ensures forall e: Effect :: e in after ==> e.index > i
  {
    FlattenStep(bs, i);
    FlattenPrefix(bs, i + 1);
    FlattenAfter(bs, i + 1);
    TaggedPrefix(bs, i);
    FlattenBelow(bs[..i]);
    var t := Flatten(bs);
    var n := |Flatten(bs[..i + 1])|;
    after := t[n..];
    assert t == t[..n] + after;
    forall e: Effect | e in after ensures e.index > i {
      var a :| 0 <= a < |after| && after[a] == e;
      assert t[n + a] == e;
    }
  }

  /** An empty block leaves no trace of its index. */
  lemma FlattenSkips(bs: seq<seq<Effect>>, i: nat)
    requires Tagged(bs) && i < |bs| && bs[i] == []
    ensures forall e: Effect :: e in Flatten(bs) ==> e.index != i
  {
    var after := FlattenAround(bs, i);
    var before := Flatten(bs[..i]);
    forall e: Effect | e in Flatten(bs) ensures e.index != i {
      assert e in (before + bs[i]) + after;
      if e in before + bs[i] {
        assert e in before;
      }
    }
  }

  /** A skipped message gets no read receipt and no handler call. */
  lemma SkippedMessageUntouched(hs: seq<LoadedHandler>, upsert: Upsert, handled: (string, nat) -> bool, i: nat)
    requires i < |upsert.messages| && Skipped(upsert.messages[i])
    ensures forall e: Effect :: e in DispatchTrace(hs, upsert, handled) ==> e.index != i
  {
    if upsert.kind == "notify" {
      var bs := Blocks(hs, upsert.messages, handled);
      assert Tagged(bs) by { BlocksTagged(hs, upsert.messages, handled); }
      assert bs[i] == [] by { assert bs[i] == MessageEffects(hs, upsert.messages, i, handled); }
      FlattenSkips(bs, i);
    }
  }

  /**
   * A message that is not skipped is marked read first and then offered to
   * the handler chain (`Chain`: in order, until one handles it), and nothing
   * about another message comes in between.
   */
  lemma QualifyingMessageEffects(hs: seq<LoadedHandler>, upsert: Upsert, handled: (string, nat) -> bool, i: nat)
    returns (before: seq<Effect>, after: seq<Effect>)
    requires upsert.kind == "notify"
    requires i < |upsert.messages| && !Skipped(upsert.messages[i])
    ensures DispatchTrace(hs, upsert, handled) == before + ([MarkRead(i)] + Chain(hs, i, handled)) + after
    ensures forall e: Effect :: e in before ==> e.index < i
    ensures forall e: Effect :: e in after ==> e.index > i
  {
    var bs := Blocks(hs, upsert.messages, handled);
    assert Tagged(bs) by { BlocksTagged(hs, upsert.messages, handled); }
    after := FlattenAround(bs, i);
    before := Flatten(bs[..i]);
    QualifyingBlock(hs, upsert.messages, handled, i);
  }

  lemma QualifyingBlock(hs: seq<LoadedHandler>, msgs: seq<WAMessage>, handled: (string, nat) -> bool, i: nat)
    requires i < |msgs| && !Skipped(msgs[i])
    ensures Blocks(hs, msgs, handled)[i] == [MarkRead(i)] + Chain(hs, i, handled)
  {
  }

  /** Handlers loaded through the sort are called in descending priority order. */
  lemma CallsInPriorityOrder(hs: seq<LoadedHandler>, i: nat, handled: (string, nat) -> bool)
    requires SortedDesc(hs)
    ensures var calls := Chain(hs, i, handled);
      forall a, b :: 0 <= a < b < |calls| ==>
        hs[a].priority >= hs[b].priority && calls[a] == Invoke(hs[a].name, i) && calls[b] == Invoke(hs[b].name, i)
  {
  }

  /** The module-level handler list of `messages.js` and its dispatch function. */
  class MessageDispatcher {
    const blacklist: seq<string>
    const whitelist: seq<string>
    var messageHandlers: seq<LoadedHandler>

    /** Module initialisation: parse `MESSAGE_HANDLER_BLACKLIST` and `MESSAGE_HANDLER_WHITELIST` (unset reads as `''`). */
    constructor (blacklistEnv: string, whitelistEnv: string)
      ensures blacklist == ParseNameList(blacklistEnv) && whitelist == ParseNameList(whitelistEnv)
      ensures messageHandlers == []
    {
      blacklist := ParseNameList(blacklistEnv);
      whitelist := ParseNameList(whitelistEnv);
      new;
      messageHandlers := [];
    }

    /**
     * `loadMessageHandlers` over the directory listing `files`, where
     * `exportsOf(file)` is what `import()` of that file yields.
     */
    method LoadMessageHandlers(files: seq<string>, exportsOf: string -> Exports)
      modifies this
      ensures messageHandlers == SortByPriority(old(messageHandlers) + Admitted(files, exportsOf, blacklist, whitelist))
    {
      var admitted := AdmitFiles(files, exportsOf);
      messageHandlers := SortByPriority(messageHandlers + admitted);
    }

    /** The loading loop: the handlers of the admitted files, in listing order. */
    method AdmitFiles(files: seq<string>, exportsOf: string -> Exports) returns (admitted: seq<LoadedHandler>)
      ensures admitted == Admitted(files, exportsOf, blacklist, whitelist)
    {
      admitted := [];
      var n := 0;
      while n < |files|
        invariant 0 <= n <= |files|
        invariant admitted == Admitted(files[..n], exportsOf, blacklist, whitelist)
      {
        var contrib := AdmitFile(files[n], exportsOf);
        AdmittedStep(files, n, exportsOf, blacklist, whitelist);
        admitted := admitted + contrib;
        n := n + 1;
      }
      assert files[..|files|] == files;
    }

    /** One pass of the loading loop: the checks in their order, each one able to skip the file. */
    method AdmitFile(file: string, exportsOf: string -> Exports) returns (contrib: seq<LoadedHandler>)
      ensures contrib == LoadOne(file, exportsOf, blacklist, whitelist)
    {
      contrib := [];
      if !EndsWith(file, ".js") {
        return;
      }
      var fileName := FileName(file);
      if fileName in blacklist {
        return;
      }
      if |whitelist| > 0 && fileName !in whitelist {
        return;
      }
      var m := exportsOf(file);
      if m.enabled == Bool(false) && fileName !in whitelist {
        return;
      }
      if !m.defaultIsFunction || m.priority.None? {
        return;
      }
      contrib := [LoadedHandler(fileName, m.priority.value)];
    }

    /** The default export, applied to one upsert. */
    method HandleUpsert(upsert: Upsert, handled: (string, nat) -> bool) returns (trace: seq<Effect>)
      ensures trace == DispatchTrace(messageHandlers, upsert, handled)
    {
      trace := [];
      if upsert.kind != "notify" {
        return;
      }
      var msgs := upsert.messages;
      var i := 0;
      while i < |msgs|
        invariant 0 <= i <= |msgs|
        invariant trace == Flatten(Blocks(messageHandlers, msgs, handled)[..i])
      {
        var msg := msgs[i];
        var text := TextOf(msg);
        FlattenStep(Blocks(messageHandlers, msgs, handled), i);
        if !TruthyStr(text) || msg.key.fromMe || IsJidNewsletter(msg.key.remoteJid) {
          i := i + 1;
          continue;
        }
        var calls := OfferToHandlers(i, handled);
        trace := trace + ([MarkRead(i)] + calls);
        i := i + 1;
      }
      assert Blocks(messageHandlers, msgs, handled)[..i] == Blocks(messageHandlers, msgs, handled);
    }

    /** The inner loop: each handler in turn, until one returns a truthy value. */
    method OfferToHandlers(i: nat, handled: (string, nat) -> bool) returns (calls: seq<Effect>)
      ensures calls == Chain(messageHandlers, i, handled)
    {
      calls := [];
      var j := 0;
      while j < |messageHandlers|
        invariant 0 <= j <= |messageHandlers|
        invariant calls == Invokes(messageHandlers[..j], i)
        invariant forall k :: 0 <= k < j ==> !handled(messageHandlers[k].name, i)
      {
        var h := messageHandlers[j];
        calls := calls + [Invoke(h.name, i)];
        assert Invokes(messageHandlers[..j + 1], i) == Invokes(messageHandlers[..j], i) + [Invoke(h.name, i)];
        if handled(h.name, i) {
          j := j + 1;
          break;
        }
        j := j + 1;
      }
      ChainStopsAt(messageHandlers, i, handled, j);
    }
  }
}
