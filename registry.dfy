/**
 * The top-level handler registry of `src/index.js`: the blacklist and
 * whitelist read from the environment, `loadHandlers`, which imports every
 * admitted file under `handlers/`, awaits its `init` and registers its
 * default export under its `event`, and the event loop installed by
 * `restartSock`, which awaits every callback registered for each event of a
 * batch, in registration order.
 *
 * A callback is known by the file it was loaded from. The import and the
 * `init` are inputs: `exportsOf(file)` is what `import()` yields and
 * `initRejects(file)` says whether that file's `init` rejects.
 */
module Registry {
  import opened Js
  import opened Plugins

  /** A registered callback: the default export of the file it was loaded from. */
  datatype Callback = Callback(file: string)

  /** What the loading loop does, in order: await an `init`, or register a callback. */
  datatype LoadStep = Init(file: string) | Register(event: JsValue, callback: Callback)

  /** The steps taken, and whether an `init` rejected and so ended the loading. */
  datatype Plan = Plan(steps: seq<LoadStep>, threw: bool)

  /** One callback invocation: the index of the event in the batch and the callback. */
  datatype Call = Call(eventIndex: nat, callback: Callback)

  /** The `handlers` map: callbacks per event, in registration order. */
  type Handlers = map<JsValue, seq<Callback>>

  /** `fs.readdirSync(...).filter(f => f.endsWith('.js'))`. */
  function JsFiles(files: seq<string>): (r: seq<string>)
    ensures |r| <= |files|
    ensures forall f :: f in r <==> f in files && EndsWith(f, ".js")
    decreases |files|
  {
    if files == [] then []
    else
      var init := files[..|files| - 1];
      var last := files[|files| - 1];
      assert files == init + [last];
      JsFiles(init) + (if EndsWith(last, ".js") then [last] else [])
  }

  /** The checks a `.js` file passes before its `init` and its registration. */
  predicate Loadable(file: string, m: Exports, blacklist: seq<string>, whitelist: seq<string>)
  {
    var name := FileName(file);
    PassesLists(name, blacklist, whitelist) && EnabledOrWhitelisted(name, m, whitelist)
    && m.event.Truthy() && m.defaultIsFunction
  }

  /** The steps of one iteration of the loading loop. */
  function FileSteps(file: string, m: Exports, blacklist: seq<string>, whitelist: seq<string>,
                     initRejects: string -> bool): Plan
  {
    if !Loadable(file, m, blacklist, whitelist) then Plan([], false)
    else if m.hasInit && initRejects(file) then Plan([Init(file)], true)
    else Plan((if m.hasInit then [Init(file)] else []) + [Register(m.event, Callback(file))], false)
  }

  /** The loading loop over `files`, stopping at the first `init` that rejects. */
  function LoadPlan(files: seq<string>, exportsOf: string -> Exports, blacklist: seq<string>, whitelist: seq<string>,
                    initRejects: string -> bool): Plan
    decreases |files|
  {
    if files == [] then Plan([], false)
    else
      var p := LoadPlan(files[..|files| - 1], exportsOf, blacklist, whitelist, initRejects);
      if p.threw then p
      else
        var last := files[|files| - 1];
        var f := FileSteps(last, exportsOf(last), blacklist, whitelist, initRejects);
        Plan(p.steps + f.steps, f.threw)
  }

  lemma LoadPlanStep(files: seq<string>, n: nat, exportsOf: string -> Exports, blacklist: seq<string>, whitelist: seq<string>,
                     initRejects: string -> bool)
    requires n < |files| && !LoadPlan(files[..n], exportsOf, blacklist, whitelist, initRejects).threw
    ensures LoadPlan(files[..n + 1], exportsOf, blacklist, whitelist, initRejects)
      == var f := FileSteps(files[n], exportsOf(files[n]), blacklist, whitelist, initRejects);
         Plan(LoadPlan(files[..n], exportsOf, blacklist, whitelist, initRejects).steps + f.steps, f.threw)
  {
    assert files[..n + 1][..n] == files[..n];
  }

  /** Once an `init` has rejected, no later file is looked at. */
  lemma {:induction false} RejectionEndsLoading(files: seq<string>, n: nat, exportsOf: string -> Exports,
                                                blacklist: seq<string>, whitelist: seq<string>, initRejects: string -> bool)
    requires n <= |files| && LoadPlan(files[..n], exportsOf, blacklist, whitelist, initRejects).threw
    ensures LoadPlan(files, exportsOf, blacklist, whitelist, initRejects)
      == LoadPlan(files[..n], exportsOf, blacklist, whitelist, initRejects)
    decreases |files|
  {
    if n < |files| {
      var init := files[..|files| - 1];
      assert init[..n] == files[..n];
      RejectionEndsLoading(init, n, exportsOf, blacklist, whitelist, initRejects);
    } else {
      assert files[..n] == files;
    }
  }

  /** `handlers.get(event) || []`. */
  function ListFor(handlers: Handlers, event: JsValue): seq<Callback>
  {
    if event in handlers then handlers[event] else []
  }

  /**
   * `registerHandler(event, fn)`: the event's list, created empty on first
   * use, gets `fn` at its end; every other event keeps its list.
   */
  function Add(handlers: Handlers, event: JsValue, fn: Callback): (r: Handlers)
    ensures r.Keys == handlers.Keys + {event}
    ensures ListFor(r, event) == ListFor(handlers, event) + [fn]
    ensures forall e :: e != event ==> ListFor(r, e) == ListFor(handlers, e)
  {
    handlers[event := ListFor(handlers, event) + [fn]]
  }

  /** The map after the registrations among `steps`, in order. */
  function Registered(handlers: Handlers, steps: seq<LoadStep>): Handlers
    decreases |steps|
  {
    if steps == [] then handlers
    else
      var h := Registered(handlers, steps[..|steps| - 1]);
      var last := steps[|steps| - 1];
      if last.Init? then h else Add(h, last.event, last.callback)
  }

  /** The callbacks `steps` registers for `event`, in order. */
  function CallbacksFor(steps: seq<LoadStep>, event: JsValue): seq<Callback>
    decreases |steps|
  {
    if steps == [] then []
    else
      var last := steps[|steps| - 1];
      CallbacksFor(steps[..|steps| - 1], event)
      + (if last.Register? && last.event == event then [last.callback] else [])
  }

  lemma RegisteredSnoc(handlers: Handlers, steps: seq<LoadStep>, s: LoadStep)
    ensures s.Init? ==> Registered(handlers, steps + [s]) == Registered(handlers, steps)
    ensures s.Register? ==> Registered(handlers, steps + [s]) == Add(Registered(handlers, steps), s.event, s.callback)
  {
    assert (steps + [s])[..|steps|] == steps;
  }

  /** Registering two runs of steps one after the other. */
  lemma {:induction false} RegisteredAppend(handlers: Handlers, first: seq<LoadStep>, second: seq<LoadStep>)
    ensures Registered(handlers, first + second) == Registered(Registered(handlers, first), second)
    decreases |second|
  {
    if second == [] {
      assert first + second == first;
    } else {
      var init := second[..|second| - 1];
      var last := second[|second| - 1];
      RegisteredAppend(handlers, first, init);
      assert first + second == (first + init) + [last];
      assert second == init + [last];
      RegisteredSnoc(handlers, first + init, last);
      RegisteredSnoc(Registered(handlers, first), init, last);
    }
  }

  /**
   * Registration only appends: each event's list is its earlier list
   * followed by the callbacks registered for it, in registration order.
   */
  lemma {:induction false} RegisteredLists(handlers: Handlers, steps: seq<LoadStep>, event: JsValue)
    ensures ListFor(Registered(handlers, steps), event) == ListFor(handlers, event) + CallbacksFor(steps, event)
    decreases |steps|
  {
    if steps != [] {
      var init := steps[..|steps| - 1];
      RegisteredLists(handlers, init, event);
      var last := steps[|steps| - 1];
      if last.Register? && last.event == event {
        assert CallbacksFor(steps, event) == CallbacksFor(init, event) + [last.callback];
      } else {
        assert CallbacksFor(steps, event) == CallbacksFor(init, event) + [];
      }
    } else {
      assert ListFor(handlers, event) + [] == ListFor(handlers, event);
    }
  }

  /**
   * Every step of the loading comes from a `.js` file of the listing that
   * passes the lists, the enable check and the export checks; a callback is
   * registered under its own module's `event`, and only a module with an
   * `init` gets an `init` step.
   */
  lemma {:induction false} StepsFromLoadableFiles(files: seq<string>, exportsOf: string -> Exports,
                                                  blacklist: seq<string>, whitelist: seq<string>, initRejects: string -> bool)
    ensures forall s :: s in LoadPlan(files, exportsOf, blacklist, whitelist, initRejects).steps ==>
      var f := if s.Init? then s.file else s.callback.file;
      f in files && Loadable(f, exportsOf(f), blacklist, whitelist)
      && (s.Init? ==> exportsOf(f).hasInit)
      && (s.Register? ==> s.event == exportsOf(f).event)
    decreases |files|
  {
    if files != [] {
      var init := files[..|files| - 1];
      StepsFromLoadableFiles(init, exportsOf, blacklist, whitelist, initRejects);
      forall f | f in init ensures f in files {
        var k :| 0 <= k < |init| && init[k] == f;
        assert files[k] == f;
      }
    }
  }

  /** A blacklisted name never gets a step; under a non-empty whitelist, neither does an unlisted one. */
  lemma ListsExclude(files: seq<string>, exportsOf: string -> Exports,
                     blacklist: seq<string>, whitelist: seq<string>, initRejects: string -> bool)
    ensures forall s :: s in LoadPlan(files, exportsOf, blacklist, whitelist, initRejects).steps ==>
      var f := if s.Init? then s.file else s.callback.file;
      FileName(f) !in blacklist && (|whitelist| > 0 ==> FileName(f) in whitelist)
      && (exportsOf(f).enabled == Bool(false) ==> FileName(f) in whitelist)
  {
    StepsFromLoadableFiles(files, exportsOf, blacklist, whitelist, initRejects);
  }

  /** In `steps`, every registration of a module with an `init` directly follows that `init`. */
  predicate InitsPrecede(steps: seq<LoadStep>, exportsOf: string -> Exports)
  {
    forall k :: 0 <= k < |steps| && steps[k].Register? && exportsOf(steps[k].callback.file).hasInit ==>
      k > 0 && steps[k - 1] == Init(steps[k].callback.file)
  }

  /** A module's `init` is awaited right before its callback is registered. */
  lemma {:induction false} InitBeforeRegister(files: seq<string>, exportsOf: string -> Exports,
                                              blacklist: seq<string>, whitelist: seq<string>, initRejects: string -> bool)
    ensures InitsPrecede(LoadPlan(files, exportsOf, blacklist, whitelist, initRejects).steps, exportsOf)
    decreases |files|
  {
    if files != [] {
      var init := files[..|files| - 1];
      InitBeforeRegister(init, exportsOf, blacklist, whitelist, initRejects);
      var p := LoadPlan(init, exportsOf, blacklist, whitelist, initRejects);
      if !p.threw {
        var last := files[|files| - 1];
        var f := FileSteps(last, exportsOf(last), blacklist, whitelist, initRejects);
        var steps := p.steps + f.steps;
        assert LoadPlan(files, exportsOf, blacklist, whitelist, initRejects).steps == steps;
        forall k | 0 <= k < |steps| && steps[k].Register? && exportsOf(steps[k].callback.file).hasInit
          ensures k > 0 && steps[k - 1] == Init(steps[k].callback.file)
        {
          if k < |p.steps| {
            assert steps[k] == p.steps[k];
            assert k > 0 && steps[k - 1] == p.steps[k - 1];
          } else {
            var j := k - |p.steps|;
            assert steps[k] == f.steps[j];
            assert f.steps[j].callback.file == last;
            assert f.steps == [Init(last), Register(exportsOf(last).event, Callback(last))];
            assert j == 1;
          }
        }
      }
    }
  }

  /**
   * When no `init` rejects, every `.js` file of the listing that passes the
   * checks is registered under its `event`.
   */
  lemma {:induction false} LoadableFilesRegistered(files: seq<string>, exportsOf: string -> Exports,
                                                   blacklist: seq<string>, whitelist: seq<string>, initRejects: string -> bool)
    requires forall f :: f in files ==> !initRejects(f)
    ensures !LoadPlan(files, exportsOf, blacklist, whitelist, initRejects).threw
    ensures forall f :: f in files && Loadable(f, exportsOf(f), blacklist, whitelist) ==>
      Register(exportsOf(f).event, Callback(f)) in LoadPlan(files, exportsOf, blacklist, whitelist, initRejects).steps
    decreases |files|
  {
    if files != [] {
      var init := files[..|files| - 1];
      var last := files[|files| - 1];
      assert files == init + [last];
      LoadableFilesRegistered(init, exportsOf, blacklist, whitelist, initRejects);
    }
  }

  /** The calls for event `i` of a batch: each callback registered for it, in order. */
  function EventCalls(handlers: Handlers, name: string, i: nat): (r: seq<Call>)
    ensures |r| == |ListFor(handlers, Str(name))|
    ensures forall k :: 0 <= k < |r| ==> r[k] == Call(i, ListFor(handlers, Str(name))[k])
  {
    var cbs := ListFor(handlers, Str(name));
    seq(|cbs|, k requires 0 <= k < |cbs| => Call(i, cbs[k]))
  }

  /** Every call a batch makes when no callback rejects: event by event, callback by callback. */
  function AllCalls(handlers: Handlers, events: seq<string>): seq<Call>
    decreases |events|
  {
    if events == [] then []
    else AllCalls(handlers, events[..|events| - 1]) + EventCalls(handlers, events[|events| - 1], |events| - 1)
  }

  lemma AllCallsStep(handlers: Handlers, events: seq<string>, i: nat)
    requires i < |events|
    ensures AllCalls(handlers, events[..i + 1]) == AllCalls(handlers, events[..i]) + EventCalls(handlers, events[i], i)
  {
    assert events[..i + 1][..i] == events[..i];
  }

  /**
   * No short-circuit: what a callback returns is never looked at, so the
   * calls for an event are all its callbacks, wherever it sits in the batch;
   * an event with no handlers calls nothing.
   */
  lemma {:induction false} EveryCallbackCalled(handlers: Handlers, events: seq<string>, i: nat)
    returns (before: seq<Call>, after: seq<Call>)
    requires i < |events|
    ensures AllCalls(handlers, events) == before + EventCalls(handlers, events[i], i) + after
    ensures forall c :: c in before ==> c.eventIndex < i
    ensures forall c :: c in after ==> c.eventIndex > i
    decreases |events|
  {
    var init := events[..|events| - 1];
    var lastCalls := EventCalls(handlers, events[|events| - 1], |events| - 1);
    assert AllCalls(handlers, events) == AllCalls(handlers, init) + lastCalls;
    if i == |events| - 1 {
      assert init == events[..i];
      CallsBelow(handlers, init);
      before := AllCalls(handlers, init);
      after := [];
      assert AllCalls(handlers, events) == before + EventCalls(handlers, events[i], i) + after;
    } else {
      assert init[i] == events[i];
      var b, a := EveryCallbackCalled(handlers, init, i);
      before := b;
      after := a + lastCalls;
      assert AllCalls(handlers, events) == (b + EventCalls(handlers, events[i], i) + a) + lastCalls;
      forall c | c in after ensures c.eventIndex > i {
        if c in lastCalls {
          var k :| 0 <= k < |lastCalls| && lastCalls[k] == c;
        }
      }
    }
  }

  /** The calls for the first `n` events concern only those events. */
  lemma {:induction false} CallsBelow(handlers: Handlers, events: seq<string>)
    ensures forall c :: c in AllCalls(handlers, events) ==> c.eventIndex < |events|
    decreases |events|
  {
    if events != [] {
      var init := events[..|events| - 1];
      CallsBelow(handlers, init);
      var last := EventCalls(handlers, events[|events| - 1], |events| - 1);
      forall c | c in last ensures c.eventIndex < |events| {
        var k :| 0 <= k < |last| && last[k] == c;
      }
    }
  }

  /** The registry: the parsed lists and the `handlers` map. */
  class HandlerRegistry {
    const blacklist: seq<string>
    const whitelist: seq<string>
    var handlers: Handlers

    /** Module initialisation: parse `HANDLER_BLACKLIST` and `HANDLER_WHITELIST` (unset reads as `''`), start with no handlers. */
    constructor (blacklistEnv: string, whitelistEnv: string)
      ensures blacklist == ParseNameList(blacklistEnv) && whitelist == ParseNameList(whitelistEnv)
      ensures handlers == map[]
    {
      blacklist := ParseNameList(blacklistEnv);
      whitelist := ParseNameList(whitelistEnv);
      new;
      handlers := map[];
    }

    /** `registerHandler(event, fn)`. */
    method RegisterHandler(event: JsValue, fn: Callback)
      modifies this
      ensures handlers == Add(old(handlers), event, fn)
    {
      if event !in handlers {
        handlers := handlers[event := []];
      }
      handlers := handlers[event := handlers[event] + [fn]];
    }

    /**
     * `loadHandlers()` over the directory listing `files`: the steps it
     * takes, whether it rejected, and the map it leaves.
     */
    method LoadHandlers(files: seq<string>, exportsOf: string -> Exports, initRejects: string -> bool)
      returns (steps: seq<LoadStep>, threw: bool)
      modifies this
      ensures Plan(steps, threw) == LoadPlan(JsFiles(files), exportsOf, blacklist, whitelist, initRejects)
      ensures handlers == Registered(old(handlers), steps)
    {
      var jsFiles := JsFiles(files);
      steps := [];
      threw := false;
      var n := 0;
      while n < |jsFiles|
        invariant 0 <= n <= |jsFiles|
        invariant LoadPlan(jsFiles[..n], exportsOf, blacklist, whitelist, initRejects) == Plan(steps, false)
        invariant handlers == Registered(old(handlers), steps)
        invariant !threw
      {
        LoadPlanStep(jsFiles, n, exportsOf, blacklist, whitelist, initRejects);
        var file := jsFiles[n];
        var fileSteps, rejected := LoadFile(file, exportsOf, initRejects);
        RegisteredAppend(old(handlers), steps, fileSteps);
        steps := steps + fileSteps;
        if rejected {
          threw := true;
          RejectionEndsLoading(jsFiles, n + 1, exportsOf, blacklist, whitelist, initRejects);
          return;
        }
        n := n + 1;
      }
      assert jsFiles[..n] == jsFiles;
    }

    /** One iteration of the loading loop, with its `continue`s. */
    method LoadFile(file: string, exportsOf: string -> Exports, initRejects: string -> bool)
      returns (fileSteps: seq<LoadStep>, rejected: bool)
      modifies this
      ensures Plan(fileSteps, rejected) == FileSteps(file, exportsOf(file), blacklist, whitelist, initRejects)
      ensures handlers == Registered(old(handlers), fileSteps)
    {
      fileSteps := [];
      rejected := false;
      var fileName := FileName(file);
      if fileName in blacklist {
        return;
      }
      if |whitelist| > 0 && fileName !in whitelist {
        return;
      }
      var m := exportsOf(file);
      if m.enabled == Bool(false) && fileName !in whitelist {
        return;
      }
      if !m.event.Truthy() || !m.defaultIsFunction {
        return;
      }
      if m.hasInit {
        fileSteps := [Init(file)];
        if initRejects(file) {
          rejected := true;
          return;
        }
      }
      RegisterHandler(m.event, Callback(file));
      RegisteredSnoc(old(handlers), fileSteps, Register(m.event, Callback(file)));
      fileSteps := fileSteps + [Register(m.event, Callback(file))];
    }

    /**
     * The `sock.ev.process` callback over the entries of one batch of
     * events: every callback registered for each event is awaited in turn,
     * until one rejects, which ends the batch.
     */
    method ProcessEvents(events: seq<string>, rejects: Call -> bool) returns (calls: seq<Call>, rejected: bool)
      ensures calls <= AllCalls(handlers, events)
      ensures !rejected ==> calls == AllCalls(handlers, events)
      ensures rejected ==> |calls| > 0 && rejects(calls[|calls| - 1])
      ensures forall k :: 0 <= k < |calls| - 1 ==> !rejects(calls[k])
      ensures !rejected ==> forall c :: c in calls ==> !rejects(c)
    {
      calls := [];
      rejected := false;
      var i := 0;
      while i < |events|
        invariant 0 <= i <= |events|
        invariant calls == AllCalls(handlers, events[..i])
        invariant forall c :: c in calls ==> !rejects(c)
      {
        AllCallsStep(handlers, events, i);
        PrefixOfAll(handlers, events, i + 1);
        var eventCalls, eventRejected := ProcessEvent(events[i], i, rejects);
        ghost var before := calls;
        calls := calls + eventCalls;
        if eventRejected {
          rejected := true;
          RejectionInEvent(before, eventCalls, EventCalls(handlers, events[i], i), rejects);
          return;
        }
        i := i + 1;
      }
      assert events[..i] == events;
    }

    /** The inner loop for one event: its callbacks, awaited one by one, until one rejects. */
    method ProcessEvent(name: string, i: nat, rejects: Call -> bool) returns (calls: seq<Call>, rejected: bool)
      ensures calls <= EventCalls(handlers, name, i)
      ensures !rejected ==> calls == EventCalls(handlers, name, i)
      ensures rejected ==> |calls| > 0 && rejects(calls[|calls| - 1])
      ensures forall k :: 0 <= k < |calls| - 1 ==> !rejects(calls[k])
      ensures !rejected ==> forall c :: c in calls ==> !rejects(c)
    {
      var callbacks := ListFor(handlers, Str(name));
      var all := EventCalls(handlers, name, i);
      calls := [];
      rejected := false;
      var j := 0;
      while j < |callbacks|
        invariant 0 <= j <= |callbacks|
        invariant calls == all[..j]
        invariant forall c :: c in calls ==> !rejects(c)
      {
        var call := Call(i, callbacks[j]);
        assert all[..j + 1] == all[..j] + [call];
        calls := calls + [call];
        if rejects(call) {
          rejected := true;
          return;
        }
        j := j + 1;
      }
      assert all[..j] == all;
    }
  }

  /** A rejection during one event ends the batch after a prefix of that event's calls. */
  lemma RejectionInEvent(before: seq<Call>, eventCalls: seq<Call>, all: seq<Call>, rejects: Call -> bool)
    requires eventCalls <= all && |eventCalls| > 0
    requires forall c :: c in before ==> !rejects(c)
    requires forall k :: 0 <= k < |eventCalls| - 1 ==> !rejects(eventCalls[k])
    ensures before + eventCalls <= before + all
    ensures (before + eventCalls)[|before + eventCalls| - 1] == eventCalls[|eventCalls| - 1]
    ensures forall k :: 0 <= k < |before + eventCalls| - 1 ==> !rejects((before + eventCalls)[k])
  {
    var calls := before + eventCalls;
    forall k | 0 <= k < |calls| - 1 ensures !rejects(calls[k]) {
      if k < |before| {
        assert calls[k] in before;
      } else {
        assert calls[k] == eventCalls[k - |before|];
      }
    }
  }

  /** The calls for a prefix of the batch are a prefix of the calls for the whole batch. */
  lemma {:induction false} PrefixOfAll(handlers: Handlers, events: seq<string>, n: nat)
    requires n <= |events|
    ensures AllCalls(handlers, events[..n]) <= AllCalls(handlers, events)
    decreases |events|
  {
    if n < |events| {
      var init := events[..|events| - 1];
      assert init[..n] == events[..n];
      PrefixOfAll(handlers, init, n);
      assert AllCalls(handlers, events) == AllCalls(handlers, init) + EventCalls(handlers, events[|events| - 1], |events| - 1);
    } else {
      assert events[..n] == events;
    }
  }
}
