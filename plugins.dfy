/**
 * The admission rule that both loaders apply to a handler file before and
 * after importing it: the file name is the directory entry with its first
 * `.js` removed; a blacklisted name is skipped; with a non-empty whitelist an
 * unlisted name is skipped; a module exporting `enabled === false` is skipped
 * unless its name is whitelisted. What each loader then demands of the
 * module's exports differs and lives with that loader.
 */
module Plugins {
  import opened Js

  /** The exports a loader inspects after `import()` of a handler file. */
  datatype Exports = Exports(
    enabled: JsValue,          // `module.enabled`
    defaultIsFunction: bool,   // `typeof module.default === 'function'`
    priority: Option<int>,     // `module.priority` when it is a number
    event: JsValue,            // `module.event`
    hasInit: bool              // `module.init` is truthy
  )

  /** Index of the first occurrence of `p` in `s`, as `indexOf`. */
  function IndexOf(s: string, p: string): (r: Option<nat>)
    ensures r.Some? ==> r.value <= |s| && StartsWith(s[r.value..], p)
    ensures r.Some? ==> forall i :: 0 <= i < r.value ==> !StartsWith(s[i..], p)
    ensures r.None? ==> forall i :: 0 <= i <= |s| ==> !StartsWith(s[i..], p)
    decreases |s|
  {
    if StartsWith(s, p) then (assert s[0..] == s; Some(0))
    else if s == [] then None
    else
      var rest := IndexOf(s[1..], p);
      assert s[0..] == s;
      assert forall j :: 1 <= j <= |s| ==> s[j..] == s[1..][j - 1..];
      match rest
      case None => None
      case Some(i) => Some(i + 1)
  }

  /** `file.replace('.js', '')`: only the first occurrence is removed. */
  function FileName(file: string): string
  {
    match IndexOf(file, ".js")
    case None => file
    case Some(i) => file[..i] + file[i + 3..]
  }

  /** For a name without dots, the loader's file name is the directory entry without its extension. */
  lemma FileNameStripsExtension(name: string)
    requires '.' !in name
    ensures FileName(name + ".js") == name
  {
    var f := name + ".js";
    assert f[|name|..] == ".js";
    var r := IndexOf(f, ".js");
    assert r.Some?;
    var i := r.value;
    assert f[i..][0] == '.';
    assert forall k :: 0 <= k < |name| ==> f[k] == name[k];
    assert i == |name|;
    assert f[..|name|] == name;
  }

  /** Because only the first `.js` is removed, `a.json.js` is loaded under the name `aon.js`. */
  lemma FileNameFirstOccurrence()
    ensures FileName("a.json.js") == "aon.js"
  {
    var f := "a.json.js";
    assert f[..3][0] == 'a';
    assert StartsWith(f[1..], ".js");
    assert IndexOf(f[1..], ".js") == Some(0);
    assert IndexOf(f, ".js") == Some(1);
  }

  /** The two list checks made before the module is imported. */
  predicate PassesLists(fileName: string, blacklist: seq<string>, whitelist: seq<string>)
  {
    fileName !in blacklist && (|whitelist| == 0 || fileName in whitelist)
  }

  /** `module.enabled === false && !whitelist.includes(fileName)` is the skip condition. */
  predicate EnabledOrWhitelisted(fileName: string, m: Exports, whitelist: seq<string>)
  {
    !(m.enabled == Bool(false) && fileName !in whitelist)
  }

  /**
   * What the list and enable checks let through, said the other way round:
   * a blacklisted name never passes, an unlisted name never passes a
   * non-empty whitelist, and `enabled === false` is overridden exactly by
   * being whitelisted.
   */
  lemma ListRule(fileName: string, m: Exports, blacklist: seq<string>, whitelist: seq<string>)
    ensures fileName in blacklist ==> !PassesLists(fileName, blacklist, whitelist)
    ensures |whitelist| > 0 && fileName !in whitelist ==> !PassesLists(fileName, blacklist, whitelist)
    ensures m.enabled == Bool(false) ==>
      (EnabledOrWhitelisted(fileName, m, whitelist) <==> fileName in whitelist)
    ensures m.enabled != Bool(false) ==> EnabledOrWhitelisted(fileName, m, whitelist)
    ensures fileName !in blacklist && |whitelist| == 0 ==> PassesLists(fileName, blacklist, whitelist)
  {
  }
}
