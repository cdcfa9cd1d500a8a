/**
 * The fragment of JavaScript's value semantics that the bot's core relies on:
 * optional values, truthiness, template-literal conversion `String(v)`,
 * `String.prototype.trim`, `split` on one character, `Array.prototype.join`,
 * `includes`/`startsWith`/`endsWith`, and the comma-separated name lists that
 * every loader reads from the environment (`env.split(',').map(trim).filter(Boolean)`).
 */
module Js {

  datatype Option<+T> = None | Some(value: T)

  /** A value, or the message of the `Error` that was thrown instead. */
  datatype Result<+T> = Ok(value: T) | Err(message: string)

  /** A JSON-like scalar as it appears in documents, block properties and request bodies. */
  datatype JsValue = Undefined | Null | Bool(b: bool) | Num(n: int) | Str(s: string)
  {
    /** JavaScript truthiness: `undefined`, `null`, `false`, `0` and `""` are falsy. */
    predicate Truthy()
    {
      match this
      case Undefined => false
      case Null => false
      case Bool(b) => b
      case Num(n) => n != 0
      case Str(s) => s != ""
    }
  }

  /** `obj[key]` on a plain object of scalars: `undefined` when the key is absent. */
  function Get(obj: map<string, JsValue>, key: string): JsValue
  {
    if key in obj then obj[key] else Undefined
  }

  /** Truthiness of an optional string (`undefined`/`null` are `None`). */
  predicate TruthyStr(o: Option<string>)
  {
    o.Some? && o.value != ""
  }

  /** JavaScript `a || b` on optional strings: `a` when truthy, else `b` whatever it is. */
  function Or(a: Option<string>, b: Option<string>): (r: Option<string>)
    ensures TruthyStr(r) <==> TruthyStr(a) || TruthyStr(b)
    ensures TruthyStr(a) ==> r == a
  {
    if TruthyStr(a) then a else b
  }

  function DigitChar(d: nat): char
    requires d < 10
  {
    "0123456789"[d]
  }

  /** Decimal rendering of a natural number, as `String(n)` does for integers. */
  function NatToString(n: nat): (r: string)
    ensures |r| >= 1
    ensures forall i :: 0 <= i < |r| ==> '0' <= r[i] <= '9'
    decreases n
  {
    if n < 10 then [DigitChar(n)] else NatToString(n / 10) + [DigitChar(n % 10)]
  }

  function IntToString(n: int): (r: string)
    ensures |r| >= 1
  {
    if n < 0 then "-" + NatToString(-n) else NatToString(n)
  }

  /** `String(v)`, which is what `${v}` and `"..." + v` do to a value. */
  function ToStr(v: JsValue): (r: string)
    ensures v.Str? ==> r == v.s
    ensures v.Undefined? ==> r == "undefined"
    ensures v.Null? ==> r == "null"
  {
    match v
    case Undefined => "undefined"
    case Null => "null"
    case Bool(b) => if b then "true" else "false"
    case Num(n) => IntToString(n)
    case Str(s) => s
  }

  /** The characters `String.prototype.trim` removes: white space and line terminators. */
  predicate IsJsSpace(c: char)
  {
    c == ' ' || c == '\t' || c == '\n' || c == '\r' || c == '\U{0B}' || c == '\U{0C}'
    || c == '\U{A0}' || c == '\U{FEFF}' || c == '\U{1680}' || ('\U{2000}' <= c <= '\U{200A}')
    || c == '\U{2028}' || c == '\U{2029}' || c == '\U{202F}' || c == '\U{205F}' || c == '\U{3000}'
  }

  function TrimStart(s: string): string
  {
    if s != [] && IsJsSpace(s[0]) then TrimStart(s[1..]) else s
  }

  function TrimEnd(s: string): string
  {
    if s != [] && IsJsSpace(s[|s| - 1]) then TrimEnd(s[..|s| - 1]) else s
  }

  /** `trimStart` drops a run of leading white space and stops at the first other character. */
  lemma {:induction false} TrimStartSpec(s: string)
    ensures |TrimStart(s)| <= |s| && TrimStart(s) == s[|s| - |TrimStart(s)|..]
    ensures TrimStart(s) == [] || !IsJsSpace(TrimStart(s)[0])
    ensures forall i :: 0 <= i < |s| - |TrimStart(s)| ==> IsJsSpace(s[i])
  {
    if s != [] && IsJsSpace(s[0]) {
      TrimStartSpec(s[1..]);
      assert s[1..][|s| - 1 - |TrimStart(s)|..] == s[|s| - |TrimStart(s)|..];
      forall i | 0 < i < |s| - |TrimStart(s)|
        ensures IsJsSpace(s[i])
      {
        assert s[1..][i - 1] == s[i];
      }
    }
  }

  /** `trimEnd` drops a run of trailing white space and stops at the last other character. */
  lemma {:induction false} TrimEndSpec(s: string)
    ensures |TrimEnd(s)| <= |s| && TrimEnd(s) == s[..|TrimEnd(s)|]
    ensures TrimEnd(s) == [] || !IsJsSpace(TrimEnd(s)[|TrimEnd(s)| - 1])
    ensures forall i :: |TrimEnd(s)| <= i < |s| ==> IsJsSpace(s[i])
  {
    if s != [] && IsJsSpace(s[|s| - 1]) {
      TrimEndSpec(s[..|s| - 1]);
      assert s[..|s| - 1][..|TrimEnd(s)|] == s[..|TrimEnd(s)|];
      forall i | |TrimEnd(s)| <= i < |s| - 1
        ensures IsJsSpace(s[i])
      {
        assert s[..|s| - 1][i] == s[i];
      }
    }
  }

  /** `s.trim()`. */
  function Trim(s: string): string
  {
    TrimEnd(TrimStart(s))
  }

  /** Where `s.trim()` sits in `s`: after the leading white space, before the trailing white space. */
  lemma TrimBounds(s: string) returns (a: nat, b: nat)
    ensures a <= b <= |s| && Trim(s) == s[a..b]
    ensures forall i :: 0 <= i < a ==> IsJsSpace(s[i])
    ensures forall i :: b <= i < |s| ==> IsJsSpace(s[i])
  {
    var t := TrimStart(s);
    var r := TrimEnd(t);
    TrimStartSpec(s);
    TrimEndSpec(t);
    a := |s| - |t|;
    b := a + |r|;
    assert r == t[..|r|];
    forall i | b <= i < |s|
      ensures IsJsSpace(s[i])
    {
      assert s[i] == t[i - a];
    }
  }

  /**
   * `s.trim()` is the slice of `s` left once the white space at both ends is
   * cut: nothing but white space lies outside it, and none is left at either
   * of its ends.
   */
  lemma TrimSpec(s: string)
    ensures var r := Trim(s);
      (r == [] || (!IsJsSpace(r[0]) && !IsJsSpace(r[|r| - 1])))
      && exists a, b :: 0 <= a <= b <= |s| && r == s[a..b]
           && (forall i :: 0 <= i < a ==> IsJsSpace(s[i]))
           && (forall i :: b <= i < |s| ==> IsJsSpace(s[i]))
  {
    var t := TrimStart(s);
    var r := TrimEnd(t);
    TrimStartSpec(s);
    TrimEndSpec(t);
    if r != [] {
      assert r[0] == t[0];
    }
    var a, b := TrimBounds(s);
    assert 0 <= a <= b <= |s| && r == s[a..b]
      && (forall i :: 0 <= i < a ==> IsJsSpace(s[i]))
      && (forall i :: b <= i < |s| ==> IsJsSpace(s[i]));
  }

  /** A string with no white space at either end is its own trim. */
  lemma TrimOfTrimmed(s: string)
    requires s == [] || (!IsJsSpace(s[0]) && !IsJsSpace(s[|s| - 1]))
    ensures Trim(s) == s
  {
  }

  /** `trim` is idempotent. */
  lemma TrimIdempotent(s: string)
    ensures Trim(Trim(s)) == Trim(s)
  {
    TrimSpec(s);
    TrimOfTrimmed(Trim(s));
  }

  predicate StartsWith(s: string, p: string)
  {
    |p| <= |s| && s[..|p|] == p
  }

  predicate EndsWith(s: string, p: string)
  {
    |p| <= |s| && s[|s| - |p|..] == p
  }

  /** `s.includes(p)`, by scanning start positions left to right. */
  predicate Includes(s: string, p: string)
    decreases |s|
  {
    StartsWith(s, p) || (s != [] && Includes(s[1..], p))
  }

  lemma {:induction false} IncludesSpec(s: string, p: string)
    ensures Includes(s, p) <==> exists i :: 0 <= i <= |s| && StartsWith(s[i..], p)
    decreases |s|
  {
    assert s[0..] == s;
    if s != [] {
      IncludesSpec(s[1..], p);
      if Includes(s[1..], p) {
        var i :| 0 <= i <= |s[1..]| && StartsWith(s[1..][i..], p);
        assert s[1..][i..] == s[i + 1..];
      }
      if exists i :: 0 <= i <= |s| && StartsWith(s[i..], p) {
        var i :| 0 <= i <= |s| && StartsWith(s[i..], p);
        if i > 0 {
          assert s[1..][i - 1..] == s[i..];
        }
      }
    }
  }

  /** `s.split(sep)` for a one-character separator: `""` splits into `[""]`. */
  function Split(s: string, sep: char): (r: seq<string>)
    ensures |r| >= 1
    ensures forall k :: 0 <= k < |r| ==> sep !in r[k]
  {
    if s == [] then [""]
    else if s[0] == sep then [""] + Split(s[1..], sep)
    else
      var rest := Split(s[1..], sep);
      [[s[0]] + rest[0]] + rest[1..]
  }

  /** `parts.join(sep)`: `""` for no parts, the separator only between parts. */
  function Join(parts: seq<string>, sep: string): string
  {
    if |parts| == 0 then ""
    else if |parts| == 1 then parts[0]
    else parts[0] + sep + Join(parts[1..], sep)
  }

  lemma JoinAppend(parts: seq<string>, p: string, sep: string)
    requires |parts| >= 1
    ensures Join(parts + [p], sep) == Join(parts, sep) + sep + p
  {
    if |parts| > 1 {
      assert (parts + [p])[1..] == parts[1..] + [p];
      JoinAppend(parts[1..], p, sep);
    }
  }

  /** Joining the pieces of a split with the same separator gives back the string. */
  lemma {:induction false} JoinSplit(s: string, sep: char)
    ensures Join(Split(s, sep), [sep]) == s
  {
    if s != [] {
      JoinSplit(s[1..], sep);
      var rest := Split(s[1..], sep);
      if s[0] != sep {
        var r := Split(s, sep);
        assert r[1..] == rest[1..];
        if |rest| > 1 {
          assert rest == [rest[0]] + rest[1..];
        }
      }
    }
  }

  /** Splitting a join whose parts avoid the separator gives back the parts. */
  lemma {:induction false} SplitJoin(parts: seq<string>, sep: char)
    requires |parts| >= 1
    requires forall k :: 0 <= k < |parts| ==> sep !in parts[k]
    ensures Split(Join(parts, [sep]), sep) == parts
    decreases |parts|, |parts[0]|
  {
    var p := parts[0];
    if p == [] {
      if |parts| > 1 {
        SplitJoin(parts[1..], sep);
        assert Join(parts, [sep]) == [sep] + Join(parts[1..], [sep]);
      }
    } else {
      var parts' := [p[1..]] + parts[1..];
      assert sep !in parts'[0] by { assert forall c :: c in p[1..] ==> c in p; }
      SplitJoin(parts', sep);
      var s := Join(parts, [sep]);
      assert s == [p[0]] + Join(parts', [sep]);
      assert s[0] == p[0] != sep && s[1..] == Join(parts', [sep]);
      assert parts'[1..] == parts[1..];
      assert [p[0]] + p[1..] == p;
    }
  }

  function TrimAll(parts: seq<string>): (r: seq<string>)
    ensures |r| == |parts|
    ensures forall k :: 0 <= k < |r| ==> r[k] == Trim(parts[k])
  {
    seq(|parts|, k requires 0 <= k < |parts| => Trim(parts[k]))
  }

  /** `.filter(Boolean)` on strings: keeps the non-empty ones, in order. */
  function NonEmpty(parts: seq<string>): (r: seq<string>)
    ensures |r| <= |parts|
    ensures forall k :: 0 <= k < |r| ==> r[k] != "" && r[k] in parts
  {
    if parts == [] then []
    else if parts[0] == "" then NonEmpty(parts[1..])
    else [parts[0]] + NonEmpty(parts[1..])
  }

  /** A name the loaders can match: non-empty, trimmed, free of commas. */
  predicate IsListName(name: string)
  {
    name != "" && Trim(name) == name && ',' !in name
  }

  /** `(env || '').split(',').map(f => f.trim()).filter(Boolean)`. */
  function ParseNameList(env: string): (names: seq<string>)
    ensures forall k :: 0 <= k < |names| ==> IsListName(names[k])
  {
    var pieces := Split(env, ',');
    CleanedNames(pieces);
    NonEmpty(TrimAll(pieces))
  }

  lemma {:induction false} CleanedNames(pieces: seq<string>)
    requires forall k :: 0 <= k < |pieces| ==> ',' !in pieces[k]
    ensures forall k :: 0 <= k < |NonEmpty(TrimAll(pieces))| ==> IsListName(NonEmpty(TrimAll(pieces))[k])
  {
    var t := TrimAll(pieces);
    forall k | 0 <= k < |t| ensures t[k] != "" ==> IsListName(t[k]) {
      TrimmedPieceIsName(pieces[k]);
    }
    NonEmptyKeeps(t);
  }

  lemma TrimmedPieceIsName(p: string)
    requires ',' !in p
    ensures Trim(p) != "" ==> IsListName(Trim(p))
  {
    TrimIdempotent(p);
    TrimSpec(p);
  }

  /** Every element `NonEmpty` keeps is a non-empty element of its input. */
  lemma NonEmptyKeeps(parts: seq<string>)
    requires forall k :: 0 <= k < |parts| ==> parts[k] != "" ==> IsListName(parts[k])
    ensures var r := NonEmpty(parts);
      forall k :: 0 <= k < |r| ==> IsListName(r[k])
  {
    var r := NonEmpty(parts);
    forall k | 0 <= k < |r| ensures IsListName(r[k]) {
      assert r[k] in parts;
      var j :| 0 <= j < |parts| && parts[j] == r[k];
    }
  }

  /** The list written as `a,b,c` (with names that qualify) parses back to exactly those names. */
  lemma ParseJoinedNames(names: seq<string>)
    requires |names| >= 1
    requires forall k :: 0 <= k < |names| ==> IsListName(names[k])
    ensures ParseNameList(Join(names, ",")) == names
  {
    SplitJoin(names, ',');
    assert TrimAll(names) == names;
    NonEmptyOfNonEmpty(names);
  }

  lemma {:induction false} NonEmptyOfNonEmpty(parts: seq<string>)
    requires forall k :: 0 <= k < |parts| ==> parts[k] != ""
    ensures NonEmpty(parts) == parts
  {
    if parts != [] {
      NonEmptyOfNonEmpty(parts[1..]);
      assert [parts[0]] + parts[1..] == parts;
    }
  }

  /** An unset variable (`''`) gives the empty list. */
  lemma ParseEmpty()
    ensures ParseNameList("") == []
  {
    assert Split("", ',') == [""];
    assert Trim("") == "";
  }
}
