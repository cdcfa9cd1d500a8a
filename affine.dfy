/**
 * The document logic of the AFFiNE knowledge-base client (`src/kb/affine.js`):
 * URL builders, the empty-update test, the block-tree to Markdown renderer,
 * `parseDocument`, the Set-Cookie stripping of `login`, and the merges of
 * custom and basic document properties into a document's metadata.
 *
 * What the client fetches (over HTTP, socket.io or GraphQL) and what Yjs
 * decodes are inputs here: a fetched document is given as the blocks that
 * `extractBlocks` would return, in key order, and a failed fetch as an `Err`.
 */
module Affine {
  import opened Js

  // ---------------------------------------------------------------------------
  // URL builders

  /** The two client fields the URL builders interpolate with `String(...)`. */
  datatype Endpoint = Endpoint(serverUrl: JsValue, spaceId: JsValue)

  function BlobPrefix(ep: Endpoint): string
  {
    ToStr(ep.serverUrl) + "/api/workspaces/" + ToStr(ep.spaceId) + "/blobs/"
  }

  function DocPrefix(ep: Endpoint): string
  {
    ToStr(ep.serverUrl) + "/workspace/" + ToStr(ep.spaceId) + "/"
  }

  /** `getBlobUrl(blobId)`. */
  function BlobUrl(ep: Endpoint, blobId: string): string
  {
    BlobPrefix(ep) + blobId
  }

  /** `getDocUrl(docId)`. */
  function DocUrl(ep: Endpoint, docId: string): string
  {
    DocPrefix(ep) + docId
  }

  /** The blob id can be read back off the end of its URL, so distinct blobs get distinct URLs. */
  lemma BlobUrlRecoversId(ep: Endpoint, blobId: string, other: string)
    ensures StartsWith(BlobUrl(ep, blobId), BlobPrefix(ep))
    ensures BlobUrl(ep, blobId)[|BlobPrefix(ep)|..] == blobId
    ensures BlobUrl(ep, blobId) == BlobUrl(ep, other) ==> blobId == other
  {
    var u, v := BlobUrl(ep, blobId), BlobUrl(ep, other);
    assert u[..|BlobPrefix(ep)|] == BlobPrefix(ep);
    assert u[|BlobPrefix(ep)|..] == blobId;
    assert v[|BlobPrefix(ep)|..] == other;
  }

  /** The document id can be read back off the end of its URL, so distinct documents get distinct URLs. */
  lemma DocUrlRecoversId(ep: Endpoint, docId: string, other: string)
    ensures StartsWith(DocUrl(ep, docId), DocPrefix(ep))
    ensures DocUrl(ep, docId)[|DocPrefix(ep)|..] == docId
    ensures DocUrl(ep, docId) == DocUrl(ep, other) ==> docId == other
  {
    var u, v := DocUrl(ep, docId), DocUrl(ep, other);
    assert u[..|DocPrefix(ep)|] == DocPrefix(ep);
    assert u[|DocPrefix(ep)|..] == docId;
    assert v[|DocPrefix(ep)|..] == other;
  }

  /** A blob URL is never a document URL: right after the server URL one has `/api`, the other `/workspace`. */
  lemma BlobUrlIsNotDocUrl(ep: Endpoint, blobId: string, docId: string)
    ensures BlobUrl(ep, blobId) != DocUrl(ep, docId)
  {
    var n := |ToStr(ep.serverUrl)|;
    assert BlobUrl(ep, blobId)[n + 1] == 'a';
    assert DocUrl(ep, docId)[n + 1] == 'w';
  }

  // ---------------------------------------------------------------------------
  // `isEmptyUpdate`

  newtype byte = x: int | 0 <= x < 256

  /** `isEmptyUpdate(binary)`: no bytes, or exactly two zero bytes. */
  predicate IsEmptyUpdate(binary: seq<byte>)
  {
    |binary| == 0 || (|binary| == 2 && binary[0] == 0 && binary[1] == 0)
  }

  /** Exactly two byte strings count as an empty Yjs update. */
  lemma EmptyUpdateValues(binary: seq<byte>)
    ensures IsEmptyUpdate(binary) <==> binary == [] || binary == [0, 0]
  {
    if |binary| == 2 && binary[0] == 0 && binary[1] == 0 {
      assert binary == [0, 0];
    }
  }

  // ---------------------------------------------------------------------------
  // Rendering blocks to Markdown

  /**
   * A block as `block.toJSON()` yields it: its `sys:flavour`, the `prop:*`
   * fields the renderer reads, and `sys:children` (absent is `None`).
   */
  datatype Block = Block(
    flavour: JsValue,
    title: JsValue,
    text: JsValue,
    order: JsValue,
    sourceId: JsValue,
    caption: JsValue,
    children: Option<seq<string>>
  )

  /** What JavaScript throws when the renderer's recursion runs too deep (a cycle of `sys:children`). */
  const StackOverflow := "Maximum call stack size exceeded"

  const NoPage := "No affine:page block found"

  predicate IsPage(b: Block)
  {
    b.flavour == Str("affine:page")
  }

  predicate IsNote(b: Block)
  {
    b.flavour == Str("affine:note")
  }

  /** `blocks[childId]`: absent ids give `undefined`. */
  function Lookup(blocks: map<string, Block>, id: string): Option<Block>
  {
    if id in blocks then Some(blocks[id]) else None
  }

  /** `parentBlock["sys:children"] || []`. */
  function ChildIds(b: Block): seq<string>
  {
    if b.children.Some? then b.children.value else []
  }

  /** What a block that has no children to render produces. */
  function LeafMarkdown(b: Block, ep: Endpoint): string
  {
    if b.flavour == Str("affine:list") then
      (if b.order.Truthy() then ToStr(b.order) + ". " else "")
      + (if b.text.Truthy() then ToStr(b.text) + "\n" else "")
    else if b.flavour == Str("affine:paragraph") then
      (if b.text.Truthy() then ToStr(b.text) + "\n\n" else "")
    else if b.flavour == Str("affine:image") then
      "![" + (if b.caption.Truthy() then ToStr(b.caption) else "") + "](" + BlobUrl(ep, ToStr(b.sourceId)) + ")\n\n"
    else ""
  }

  /**
   * `renderBlock(block, blocks)`. The source has no guard against cycles in
   * `sys:children`; `fuel` bounds the depth of the recursion, and running out
   * of it is the stack overflow JavaScript would throw.
   */
  function RenderBlock(block: Option<Block>, blocks: map<string, Block>, ep: Endpoint, fuel: nat): Result<string>
    decreases fuel, 1, 0
  {
    if block.None? then Ok("")
    else
      var b := block.value;
      if IsPage(b) then
        match RenderChildren(b, blocks, ep, fuel)
        case Ok(md) => Ok("# " + ToStr(b.title) + "\n\n" + md)
        case Err(e) => Err(e)
      else if IsNote(b) then RenderChildren(b, blocks, ep, fuel)
      else Ok(LeafMarkdown(b, ep))
  }

  /** `renderChildren(parentBlock, blocks)`: one level deeper. */
  function RenderChildren(parent: Block, blocks: map<string, Block>, ep: Endpoint, fuel: nat): Result<string>
    decreases fuel, 0, 0
  {
    if fuel == 0 then Err(StackOverflow)
    else RenderIds(ChildIds(parent), blocks, ep, fuel - 1)
  }

  /** `ids.map(id => renderBlock(blocks[id], blocks)).join("")`; the first failure propagates. */
  function RenderIds(ids: seq<string>, blocks: map<string, Block>, ep: Endpoint, fuel: nat): Result<string>
    decreases fuel, 2, |ids|
  {
    if ids == [] then Ok("")
    else
      match RenderBlock(Lookup(blocks, ids[0]), blocks, ep, fuel)
      case Err(e) => Err(e)
      case Ok(first) =>
        match RenderIds(ids[1..], blocks, ep, fuel)
        case Err(e) => Err(e)
        case Ok(rest) => Ok(first + rest)
  }

  /** The rendering of one child at the given depth. */
  function ChildMarkdown(blocks: map<string, Block>, ep: Endpoint, fuel: nat, id: string): Result<string>
  {
    RenderBlock(Lookup(blocks, id), blocks, ep, fuel)
  }

  /** `""` followed by each part: what `join("")` yields. */
  lemma JoinEmptyCons(first: string, rest: seq<string>)
    ensures Join([first] + rest, "") == first + Join(rest, "")
  {
    if rest != [] {
      assert ([first] + rest)[1..] == rest;
    }
  }

  predicate ChildrenRender(ids: seq<string>, blocks: map<string, Block>, ep: Endpoint, fuel: nat)
  {
    forall i :: 0 <= i < |ids| ==> ChildMarkdown(blocks, ep, fuel, ids[i]).Ok?
  }

  /** The renderings of children that all render. */
  function Renderings(ids: seq<string>, blocks: map<string, Block>, ep: Endpoint, fuel: nat): (r: seq<string>)
    requires ChildrenRender(ids, blocks, ep, fuel)
    ensures |r| == |ids| && forall i :: 0 <= i < |ids| ==> Ok(r[i]) == ChildMarkdown(blocks, ep, fuel, ids[i])
  {
    seq(|ids|, i requires 0 <= i < |ids| => ChildMarkdown(blocks, ep, fuel, ids[i]).value)
  }

  /**
   * Children are rendered in `sys:children` order and concatenated: when
   * every child renders, the result is the `join("")` of their renderings.
   */
  lemma {:induction false} RenderIdsConcat(ids: seq<string>, blocks: map<string, Block>, ep: Endpoint, fuel: nat)
    requires ChildrenRender(ids, blocks, ep, fuel)
    ensures RenderIds(ids, blocks, ep, fuel) == Ok(Join(Renderings(ids, blocks, ep, fuel), ""))
    decreases |ids|
  {
    if ids != [] {
      var tail := ids[1..];
      assert ChildrenRender(tail, blocks, ep, fuel) by {
        forall i | 0 <= i < |tail| ensures ChildMarkdown(blocks, ep, fuel, tail[i]).Ok? {
          assert tail[i] == ids[i + 1];
        }
      }
      RenderIdsConcat(tail, blocks, ep, fuel);
      var parts := Renderings(ids, blocks, ep, fuel);
      var tailParts := Renderings(tail, blocks, ep, fuel);
      assert parts == [parts[0]] + tailParts by {
        forall i | 0 <= i < |tail| ensures parts[i + 1] == tailParts[i] {
          assert tail[i] == ids[i + 1];
        }
      }
      JoinEmptyCons(parts[0], tailParts);
    }
  }

  /** When a child fails to render, the whole list fails with the first failing child's error. */
  lemma {:induction false} RenderIdsFirstFailure(ids: seq<string>, blocks: map<string, Block>, ep: Endpoint, fuel: nat, i: nat)
    requires i < |ids| && ChildMarkdown(blocks, ep, fuel, ids[i]).Err?
    requires ChildrenRender(ids[..i], blocks, ep, fuel)
    ensures RenderIds(ids, blocks, ep, fuel) == ChildMarkdown(blocks, ep, fuel, ids[i])
    decreases i
  {
    if i > 0 {
      var tail := ids[1..];
      assert ChildMarkdown(blocks, ep, fuel, ids[0]).Ok? by {
        assert ids[..i][0] == ids[0];
      }
      var before := tail[..i - 1];
      assert ChildrenRender(before, blocks, ep, fuel) by {
        forall j | 0 <= j < |before| ensures ChildMarkdown(blocks, ep, fuel, before[j]).Ok? {
          assert before[j] == ids[..i][j + 1];
        }
      }
      assert tail[i - 1] == ids[i];
      RenderIdsFirstFailure(tail, blocks, ep, fuel, i - 1);
    }
  }

  /** A dangling child id renders as nothing and does not stop its siblings. */
  lemma DanglingChildRendersNothing(id: string, blocks: map<string, Block>, ep: Endpoint, fuel: nat)
    requires id !in blocks
    ensures RenderIds([id], blocks, ep, fuel) == Ok("")
    ensures RenderBlock(Lookup(blocks, id), blocks, ep, fuel) == Ok("")
  {
    var ids := [id];
    assert RenderBlock(Lookup(blocks, ids[0]), blocks, ep, fuel) == Ok("");
    assert RenderIds(ids[1..], blocks, ep, fuel) == Ok("") by {
      assert ids[1..] == [];
    }
    assert "" + "" == "";
  }

  /**
   * A page renders `# title` and a blank line, then its children; a note
   * renders only its children; every other block renders without looking at
   * children, other blocks or the depth.
   */
  lemma BlockShapes(b: Block, blocks: map<string, Block>, ep: Endpoint, fuel: nat)
    ensures IsPage(b) && RenderChildren(b, blocks, ep, fuel).Ok? ==>
      RenderBlock(Some(b), blocks, ep, fuel) == Ok("# " + ToStr(b.title) + "\n\n" + RenderChildren(b, blocks, ep, fuel).value)
    ensures IsNote(b) ==> RenderBlock(Some(b), blocks, ep, fuel) == RenderChildren(b, blocks, ep, fuel)
    ensures !IsPage(b) && !IsNote(b) ==>
      RenderBlock(Some(b), blocks, ep, fuel) == RenderBlock(Some(b), map[], ep, 0)
  {
  }

  /** A list item without order or text, a paragraph without text and an unknown flavour all render as `""`; an uncaptioned image as `![](url)`. */
  lemma LeafEdgeCases(b: Block, ep: Endpoint)
    ensures b.flavour == Str("affine:list") && !b.order.Truthy() && !b.text.Truthy() ==> LeafMarkdown(b, ep) == ""
    ensures b.flavour == Str("affine:paragraph") && !b.text.Truthy() ==> LeafMarkdown(b, ep) == ""
    ensures b.flavour == Str("affine:image") && !b.caption.Truthy() ==>
      LeafMarkdown(b, ep) == "![](" + BlobUrl(ep, ToStr(b.sourceId)) + ")\n\n"
    ensures !(b.flavour in {Str("affine:list"), Str("affine:paragraph"), Str("affine:image")}) ==> LeafMarkdown(b, ep) == ""
  {
  }

  /** More depth never changes a rendering that already finished. */
  lemma {:induction false} RenderBlockFuel(block: Option<Block>, blocks: map<string, Block>, ep: Endpoint, fuel: nat, more: nat)
    requires fuel <= more && RenderBlock(block, blocks, ep, fuel).Ok?
    ensures RenderBlock(block, blocks, ep, more) == RenderBlock(block, blocks, ep, fuel)
    decreases fuel, 1, 0
  {
    if block.Some? && (IsPage(block.value) || IsNote(block.value)) {
      RenderChildrenFuel(block.value, blocks, ep, fuel, more);
    }
  }

  lemma {:induction false} RenderChildrenFuel(parent: Block, blocks: map<string, Block>, ep: Endpoint, fuel: nat, more: nat)
    requires fuel <= more && RenderChildren(parent, blocks, ep, fuel).Ok?
    ensures RenderChildren(parent, blocks, ep, more) == RenderChildren(parent, blocks, ep, fuel)
    decreases fuel, 0, 0
  {
    RenderIdsFuel(ChildIds(parent), blocks, ep, fuel - 1, more - 1);
  }

  lemma {:induction false} RenderIdsFuel(ids: seq<string>, blocks: map<string, Block>, ep: Endpoint, fuel: nat, more: nat)
    requires fuel <= more && RenderIds(ids, blocks, ep, fuel).Ok?
    ensures RenderIds(ids, blocks, ep, more) == RenderIds(ids, blocks, ep, fuel)
    decreases fuel, 2, |ids|
  {
    if ids != [] {
      RenderBlockFuel(Lookup(blocks, ids[0]), blocks, ep, fuel, more);
      RenderIdsFuel(ids[1..], blocks, ep, fuel, more);
    }
  }

  // ---------------------------------------------------------------------------
  // Documents

  /** What `extractBlocks(doc)` yields: block ids with their blocks, in key order. */
  type Entries = seq<(string, Block)>

  /** The object `extractBlocks` fills: a later entry for the same id would overwrite an earlier one. */
  function BlockMap(entries: Entries): map<string, Block>
  {
    if entries == [] then map[]
    else BlockMap(entries[..|entries| - 1])[entries[|entries| - 1].0 := entries[|entries| - 1].1]
  }

  /** `Object.values(blocks).find(b => b && b["sys:flavour"] === "affine:page")`. */
  function FindRoot(entries: Entries): (root: Option<Block>)
    ensures root.None? <==> forall i :: 0 <= i < |entries| ==> !IsPage(entries[i].1)
    ensures root.Some? ==> IsPage(root.value)
    ensures root.Some? ==> exists i :: 0 <= i < |entries| && entries[i].1 == root.value && (forall j :: 0 <= j < i ==> !IsPage(entries[j].1))
  {
    if entries == [] then None
    else if IsPage(entries[0].1) then Some(entries[0].1)
    else
      var r := FindRoot(entries[1..]);
      assert forall j :: 1 <= j < |entries| ==> entries[1..][j - 1] == entries[j];
      if r.Some? then
        var i :| 0 <= i < |entries[1..]| && entries[1..][i].1 == r.value && (forall j :: 0 <= j < i ==> !IsPage(entries[1..][j].1));
        assert entries[i + 1].1 == r.value;
        r
      else r
  }

  /** `renderDocument(doc)`: the first page block, rendered. */
  function RenderDocument(entries: Entries, ep: Endpoint, fuel: nat): Result<string>
  {
    match FindRoot(entries)
    case None => Err(NoPage)
    case Some(root) => RenderBlock(Some(root), BlockMap(entries), ep, fuel)
  }

  /** A document renders only if it has a page block; otherwise it fails with the no-page error. */
  lemma RenderDocumentNeedsPage(entries: Entries, ep: Endpoint, fuel: nat)
    ensures (forall i :: 0 <= i < |entries| ==> !IsPage(entries[i].1)) <==> RenderDocument(entries, ep, fuel) == Err(NoPage)
  {
    var r := FindRoot(entries);
    if r.Some? {
      RenderBlockOnlyOverflows(r, BlockMap(entries), ep, fuel);
      assert StackOverflow[0] != NoPage[0];
    }
  }

  /** The renderer's only failure is the stack overflow. */
  lemma {:induction false} RenderBlockOnlyOverflows(block: Option<Block>, blocks: map<string, Block>, ep: Endpoint, fuel: nat)
    ensures RenderBlock(block, blocks, ep, fuel).Err? ==> RenderBlock(block, blocks, ep, fuel).message == StackOverflow
    decreases fuel, 1, 0
  {
    if block.Some? && (IsPage(block.value) || IsNote(block.value)) && fuel > 0 {
      RenderIdsOnlyOverflow(ChildIds(block.value), blocks, ep, fuel - 1);
    }
  }

  lemma {:induction false} RenderIdsOnlyOverflow(ids: seq<string>, blocks: map<string, Block>, ep: Endpoint, fuel: nat)
    ensures RenderIds(ids, blocks, ep, fuel).Err? ==> RenderIds(ids, blocks, ep, fuel).message == StackOverflow
    decreases fuel, 2, |ids|
  {
    if ids != [] {
      RenderBlockOnlyOverflows(Lookup(blocks, ids[0]), blocks, ep, fuel);
      RenderIdsOnlyOverflow(ids[1..], blocks, ep, fuel);
    }
  }

  /** The result of `parseDocument`. */
  datatype ParsedDoc = ParsedDoc(metadata: map<string, JsValue>, content: string, blobs: map<string, string>)

  /** An image block with a truthy `prop:sourceId` gets an entry in `blobs`. */
  predicate HasBlob(b: Block)
  {
    b.flavour == Str("affine:image") && b.sourceId.Truthy()
  }

  /** The `blobs` object after the loop has seen `entries`. */
  function BlobsOf(entries: Entries, ep: Endpoint): map<string, string>
  {
    if entries == [] then map[]
    else
      var acc := BlobsOf(entries[..|entries| - 1], ep);
      var e := entries[|entries| - 1];
      if HasBlob(e.1) then acc[e.0 := BlobUrl(ep, ToStr(e.1.sourceId))] else acc
  }

  /** One more entry seen by the loop. */
  lemma BlobsOfStep(entries: Entries, i: nat, ep: Endpoint)
    requires i < |entries|
    ensures BlobsOf(entries[..i + 1], ep) ==
      if HasBlob(entries[i].1) then BlobsOf(entries[..i], ep)[entries[i].0 := BlobUrl(ep, ToStr(entries[i].1.sourceId))]
      else BlobsOf(entries[..i], ep)
  {
    assert entries[..i + 1][..i] == entries[..i];
  }

  predicate DistinctIds(entries: Entries)
  {
    forall i, j :: 0 <= i < j < |entries| ==> entries[i].0 != entries[j].0
  }

  /**
   * `blobs` has exactly the ids of image blocks with a truthy source id, and
   * (block ids being distinct) each maps to that source's blob URL.
   */
  lemma {:induction false} BlobsExactly(entries: Entries, ep: Endpoint)
    ensures forall id :: id in BlobsOf(entries, ep) <==>
      exists i :: 0 <= i < |entries| && entries[i].0 == id && HasBlob(entries[i].1)
    ensures DistinctIds(entries) ==> forall i :: 0 <= i < |entries| && HasBlob(entries[i].1) ==>
      BlobsOf(entries, ep)[entries[i].0] == BlobUrl(ep, ToStr(entries[i].1.sourceId))
    decreases |entries|
  {
    if entries != [] {
      var init := entries[..|entries| - 1];
      BlobsExactly(init, ep);
      assert forall i :: 0 <= i < |init| ==> init[i] == entries[i];
    }
  }

  /** `parseDocument(doc)` as a function of the extracted blocks and the document's `guid`. */
  function ParseDocumentSpec(entries: Entries, guid: string, ep: Endpoint, fuel: nat): Result<ParsedDoc>
  {
    match FindRoot(entries)
    case None => Err(NoPage)
    case Some(root) =>
      match RenderBlock(Some(root), BlockMap(entries), ep, fuel)
      case Err(e) => Err(e)
      case Ok(content) => Ok(ParsedDoc(map["guid" := Str(guid), "title" := root.title], content, BlobsOf(entries, ep)))
  }

  /**
   * `parseDocument` fails exactly when `renderDocument` does; otherwise its
   * content is the document's rendering, its metadata is `{guid, title}` of
   * the first page, and its blobs are those of `BlobsOf`.
   */
  lemma ParseAgreesWithRender(entries: Entries, guid: string, ep: Endpoint, fuel: nat)
    ensures ParseDocumentSpec(entries, guid, ep, fuel).Ok? <==> RenderDocument(entries, ep, fuel).Ok?
    ensures ParseDocumentSpec(entries, guid, ep, fuel).Err? ==>
      ParseDocumentSpec(entries, guid, ep, fuel).message == RenderDocument(entries, ep, fuel).message
    ensures ParseDocumentSpec(entries, guid, ep, fuel).Ok? ==>
      var d := ParseDocumentSpec(entries, guid, ep, fuel).value;
      d.content == RenderDocument(entries, ep, fuel).value
      && d.metadata.Keys == {"guid", "title"} && d.metadata["guid"] == Str(guid)
      && d.metadata["title"] == FindRoot(entries).value.title
      && d.blobs == BlobsOf(entries, ep)
  {
  }

  // ---------------------------------------------------------------------------
  // Login cookies

  /** The answer to the sign-in request: `res.ok`, `res.status` and `res.headers.getSetCookie()`. */
  datatype LoginResponse = LoginResponse(ok: bool, status: int, setCookies: seq<string>)

  /** `c.split(";")[0]`: the cookie's `name=value` without its attributes. */
  function CookieValue(c: string): string
  {
    Split(c, ';')[0]
  }

  function CookieValues(raw: seq<string>): (r: seq<string>)
    ensures |r| == |raw| && forall k :: 0 <= k < |r| ==> r[k] == CookieValue(raw[k])
  {
    seq(|raw|, k requires 0 <= k < |raw| => CookieValue(raw[k]))
  }

  /** `rawCookies.map(c => c.split(";")[0]).filter(Boolean).join("; ")`. */
  function CookieHeader(raw: seq<string>): string
  {
    Join(NonEmpty(CookieValues(raw)), "; ")
  }

  /** The first piece of `p;rest` split on `;` is `p`. */
  lemma {:induction false} SplitFirstPiece(p: string, rest: string, sep: char)
    requires sep !in p
    ensures Split(p + [sep] + rest, sep)[0] == p
    ensures Split(p, sep)[0] == p
    decreases |p|
  {
    if p != [] {
      SplitFirstPiece(p[1..], rest, sep);
      assert (p + [sep] + rest)[1..] == p[1..] + [sep] + rest;
      assert [p[0]] + p[1..] == p;
    }
  }

  /**
   * Each Set-Cookie header contributes its `name=value` part: when header `k`
   * is `values[k]`, possibly followed by `;` and attributes, the stored cookie
   * string is exactly the values joined with `"; "`.
   */
  lemma CookieHeaderStripsAttributes(raw: seq<string>, values: seq<string>)
    requires |raw| == |values|
    requires forall k :: 0 <= k < |raw| ==>
      values[k] != "" && ';' !in values[k] && (raw[k] == values[k] || StartsWith(raw[k], values[k] + ";"))
    ensures CookieHeader(raw) == Join(values, "; ")
  {
    forall k | 0 <= k < |raw| ensures CookieValue(raw[k]) == values[k] {
      if raw[k] == values[k] {
        SplitFirstPiece(values[k], "", ';');
      } else {
        var n := |values[k]| + 1;
        assert raw[k] == values[k] + [';'] + raw[k][n..] by {
          assert raw[k][..n] == values[k] + ";";
        }
        SplitFirstPiece(values[k], raw[k][n..], ';');
      }
    }
    assert CookieValues(raw) == values;
    NonEmptyOfNonEmpty(values);
  }

  /** The stored cookie string never carries an attribute separator inside one cookie: every piece is non-empty and free of `;`. */
  lemma CookiePiecesClean(raw: seq<string>)
    ensures forall k :: 0 <= k < |NonEmpty(CookieValues(raw))| ==>
      NonEmpty(CookieValues(raw))[k] != "" && ';' !in NonEmpty(CookieValues(raw))[k]
  {
    var vs := CookieValues(raw);
    forall k | 0 <= k < |NonEmpty(vs)| ensures ';' !in NonEmpty(vs)[k] {
      var v := NonEmpty(vs)[k];
      assert v in vs;
      var j :| 0 <= j < |vs| && vs[j] == v;
      assert v == Split(raw[j], ';')[0];
    }
  }

  /** The outcome of `login`: the error it throws, or the cookie string it stores. */
  function LoginOutcome(res: LoginResponse): Result<string>
  {
    if !res.ok then Err("Login failed with status " + IntToString(res.status))
    else if |res.setCookies| == 0 then Err("No cookies received during login.")
    else Ok(CookieHeader(res.setCookies))
  }

  /** Login succeeds exactly when the response is ok and carries at least one Set-Cookie header. */
  lemma LoginSucceedsWhen(res: LoginResponse)
    ensures LoginOutcome(res).Ok? <==> res.ok && |res.setCookies| > 0
    ensures !res.ok ==> StartsWith(LoginOutcome(res).message, "Login failed with status ")
  {
    if !res.ok {
      assert LoginOutcome(res).message[..|"Login failed with status "|] == "Login failed with status ";
    }
  }

  // ---------------------------------------------------------------------------
  // Document properties

  /** A custom property definition as `getPropDefs` reads it (`PROP_ATTRS`). */
  datatype PropDef = PropDef(name: JsValue, id: JsValue, kind: JsValue, isDeleted: JsValue)

  /** `PROP_ATTRS.reduce(...)` over one definition map. */
  function DefFrom(m: map<string, JsValue>): PropDef
  {
    PropDef(Get(m, "name"), Get(m, "id"), Get(m, "type"), Get(m, "isDeleted"))
  }

  /** `dp.get(`custom:${prop.id}`)`'s key. */
  function CustomKey(def: PropDef): string
  {
    "custom:" + ToStr(def.id)
  }

  /** The first reduce of `getProps`: defined custom values under their property names. */
  function CustomProps(defs: seq<PropDef>, dp: map<string, JsValue>): map<string, JsValue>
  {
    if defs == [] then map[]
    else
      var acc := CustomProps(defs[..|defs| - 1], dp);
      var def := defs[|defs| - 1];
      var val := Get(dp, CustomKey(def));
      if val != Undefined then acc[ToStr(def.name) := val] else acc
  }

  const BasicProps: seq<string> := ["id", "primaryMode", "updatedBy", "createdBy"]

  /** The second reduce: each basic property is assigned, even when `dp` lacks it. */
  function WithBasic(acc: map<string, JsValue>, names: seq<string>, dp: map<string, JsValue>): map<string, JsValue>
  {
    if names == [] then acc
    else WithBasic(acc, names[..|names| - 1], dp)[names[|names| - 1] := Get(dp, names[|names| - 1])]
  }

  /** The properties `getProps` records for one document. */
  function DocPropsOf(defs: seq<PropDef>, dp: map<string, JsValue>): map<string, JsValue>
  {
    WithBasic(CustomProps(defs, dp), BasicProps, dp)
  }

  /** Definition `def` supplies a value for the property named `n`. */
  predicate Supplies(def: PropDef, dp: map<string, JsValue>, n: string)
  {
    ToStr(def.name) == n && Get(dp, CustomKey(def)) != Undefined
  }

  /** A custom property is present exactly when some definition of that name has a defined value. */
  lemma {:induction false} CustomPropsKeys(defs: seq<PropDef>, dp: map<string, JsValue>)
    ensures forall n :: n in CustomProps(defs, dp) <==> exists i :: 0 <= i < |defs| && Supplies(defs[i], dp, n)
    decreases |defs|
  {
    if defs != [] {
      var init := defs[..|defs| - 1];
      CustomPropsKeys(init, dp);
      assert forall i :: 0 <= i < |init| ==> init[i] == defs[i];
    }
  }

  /** A custom property's value is the defined value of some definition of that name. */
  lemma {:induction false} CustomPropsValues(defs: seq<PropDef>, dp: map<string, JsValue>)
    ensures forall n :: n in CustomProps(defs, dp) ==>
      exists i :: 0 <= i < |defs| && Supplies(defs[i], dp, n) && CustomProps(defs, dp)[n] == Get(dp, CustomKey(defs[i]))
    decreases |defs|
  {
    if defs != [] {
      var init := defs[..|defs| - 1];
      CustomPropsValues(init, dp);
      assert forall i :: 0 <= i < |init| ==> init[i] == defs[i];
    }
  }

  lemma {:induction false} WithBasicSpec(acc: map<string, JsValue>, names: seq<string>, dp: map<string, JsValue>)
    ensures WithBasic(acc, names, dp).Keys == acc.Keys + set n | n in names
    ensures forall n :: n in names ==> WithBasic(acc, names, dp)[n] == Get(dp, n)
    ensures forall n :: n in acc && n !in names ==> WithBasic(acc, names, dp)[n] == acc[n]
    decreases |names|
  {
    if names != [] {
      var init := names[..|names| - 1];
      WithBasicSpec(acc, init, dp);
      assert forall n :: n in names <==> n in init || n == names[|names| - 1];
    }
  }

  /**
   * `getProps` for one document: the four basic properties are always
   * present, with `dp`'s value (possibly `undefined`), overriding a custom
   * property of the same name; every other key is a defined custom property.
   */
  lemma DocPropsMerge(defs: seq<PropDef>, dp: map<string, JsValue>)
    ensures forall n :: n in BasicProps ==> n in DocPropsOf(defs, dp) && DocPropsOf(defs, dp)[n] == Get(dp, n)
    ensures forall n :: n !in BasicProps ==>
      (n in DocPropsOf(defs, dp) <==> exists i :: 0 <= i < |defs| && Supplies(defs[i], dp, n))
    ensures forall n :: n in DocPropsOf(defs, dp) && n !in BasicProps ==>
      n in CustomProps(defs, dp) && DocPropsOf(defs, dp)[n] == CustomProps(defs, dp)[n]
  {
    CustomPropsKeys(defs, dp);
    WithBasicSpec(CustomProps(defs, dp), BasicProps, dp);
  }

  /** `getProps`: one entry per document map of the properties doc, later ids overwriting earlier ones. */
  function AllProps(shares: seq<(string, map<string, JsValue>)>, defs: seq<PropDef>): map<string, map<string, JsValue>>
  {
    if shares == [] then map[]
    else
      var last := shares[|shares| - 1];
      AllProps(shares[..|shares| - 1], defs)[last.0 := DocPropsOf(defs, last.1)]
  }

  /** Every document of the properties doc gets an entry, and no other id does. */
  lemma {:induction false} AllPropsKeys(shares: seq<(string, map<string, JsValue>)>, defs: seq<PropDef>)
    ensures forall id :: id in AllProps(shares, defs) <==> exists i :: 0 <= i < |shares| && shares[i].0 == id
    decreases |shares|
  {
    if shares != [] {
      var init := shares[..|shares| - 1];
      AllPropsKeys(init, defs);
      assert forall i :: 0 <= i < |init| ==> init[i] == shares[i];
    }
  }

  const ReduceOnUndefined := "Cannot read properties of undefined (reading 'reduce')"

  /**
   * What `getProps` computes from the properties doc and the loaded
   * definitions. The definitions are only read inside the callback of the
   * outer `reduce`, so an empty properties doc gives the empty table even
   * when `getPropDefs` never ran; otherwise missing definitions throw.
   */
  function PropsTable(shares: seq<(string, map<string, JsValue>)>, defs: Option<seq<PropDef>>): (r: Result<map<string, map<string, JsValue>>>)
    ensures r.Err? <==> shares != [] && defs.None?
    ensures r.Err? ==> r.message == ReduceOnUndefined
    ensures r.Ok? ==> forall id :: id in r.value <==> exists i :: 0 <= i < |shares| && shares[i].0 == id
    ensures r.Ok? && defs.Some? ==> r.value == AllProps(shares, defs.value)
  {
    if shares == [] then Ok(map[])
    else if defs.None? then Err(ReduceOnUndefined)
    else
      AllPropsKeys(shares, defs.value);
      Ok(AllProps(shares, defs.value))
  }

  /** A document's entry is built from its last map in the properties doc: later maps of the same id overwrite earlier ones. */
  lemma {:induction false} AllPropsLast(shares: seq<(string, map<string, JsValue>)>, defs: seq<PropDef>, last: nat)
    requires last < |shares| && forall j :: last < j < |shares| ==> shares[j].0 != shares[last].0
    ensures shares[last].0 in AllProps(shares, defs)
    ensures AllProps(shares, defs)[shares[last].0] == DocPropsOf(defs, shares[last].1)
    decreases |shares|
  {
    if last < |shares| - 1 {
      var init := shares[..|shares| - 1];
      assert init[last] == shares[last];
      assert forall j :: last < j < |init| ==> init[j] == shares[j];
      AllPropsLast(init, defs, last);
    }
  }

  /** `getDocument`'s metadata: `id` and `url` set on the parsed metadata, then the document's properties spread over it. */
  function DocumentMetadata(parsed: map<string, JsValue>, docId: string, ep: Endpoint, props: Option<map<string, JsValue>>): map<string, JsValue>
  {
    var meta := parsed["id" := Str(docId)]["url" := Str(DocUrl(ep, docId))];
    if props.Some? then meta + props.value else meta
  }

  /**
   * Properties win over everything `parseDocument` and `getDocument` set, so
   * a document with a properties entry gets its `id` from that entry, which
   * may be `undefined`; without one it keeps `id` and `url`.
   */
  lemma PropsWin(parsed: map<string, JsValue>, docId: string, ep: Endpoint, props: Option<map<string, JsValue>>)
    ensures var m := DocumentMetadata(parsed, docId, ep, props);
      (props.Some? ==> forall k :: k in props.value ==> k in m && m[k] == props.value[k])
      && (props.None? ==> m["id"] == Str(docId) && m["url"] == Str(DocUrl(ep, docId)))
      && (forall k :: k in m <==> k in parsed || k == "id" || k == "url" || (props.Some? && k in props.value))
  {
  }

  /** With the properties `getProps` builds, the metadata's `id` is the properties doc's `id`, not the requested one. */
  lemma MetadataIdFromProps(parsed: map<string, JsValue>, docId: string, ep: Endpoint, defs: seq<PropDef>, dp: map<string, JsValue>)
    ensures DocumentMetadata(parsed, docId, ep, Some(DocPropsOf(defs, dp)))["id"] == Get(dp, "id")
  {
    DocPropsMerge(defs, dp);
    assert "id" in BasicProps;
  }

  /** A fetched Yjs document: its `guid` and what `extractBlocks` yields. */
  datatype YDoc = YDoc(guid: string, entries: Entries)

  /** The answer to `get(docId)`'s HTTP request, with the document its body decodes to. */
  datatype DocResponse = DocResponse(ok: bool, status: int, doc: YDoc)

  /** `get(docId)`: throws unless the response is ok. */
  function Fetched(res: DocResponse): (r: Result<YDoc>)
    ensures r.Ok? <==> res.ok
    ensures r.Ok? ==> r.value == res.doc
    ensures r.Err? ==> StartsWith(r.message, "Failed to fetch document. Status: ")
  {
    var prefix := "Failed to fetch document. Status: ";
    if res.ok then Ok(res.doc)
    else
      var m := prefix + IntToString(res.status);
      assert m[..|prefix|] == prefix;
      Err(m)
  }

  /**
   * What `getDocProps` returns: one document's entry, the whole table when no
   * id is given, or `undefined` when no id is given and no table was ever read.
   */
  datatype PropsView = OneDoc(entry: Option<map<string, JsValue>>) | Table(all: map<string, map<string, JsValue>>) | NoTable

  /** The client's state: what `login`, `setSpace`, `getPropDefs` and `getProps` assign. */
  class AffineClient {
    const serverUrl: JsValue
    const clientVersion: string
    var cookies: string
    var spaceType: JsValue
    var spaceId: JsValue
    var propDefs: Option<seq<PropDef>>
    var props: Option<map<string, map<string, JsValue>>>

    function Ep(): Endpoint
      reads this
    {
      Endpoint(serverUrl, spaceId)
    }

    /** The constructor; the space is only set when `spaceId` is truthy. */
    constructor (serverUrl: JsValue, cookies: string, clientVersion: string, spaceId: JsValue)
      ensures this.serverUrl == serverUrl && this.cookies == cookies && this.clientVersion == clientVersion
      ensures spaceId.Truthy() ==> this.spaceId == spaceId && spaceType == Str("workspace")
      ensures !spaceId.Truthy() ==> this.spaceId == Undefined && spaceType == Undefined
      ensures propDefs.None? && props.None?
    {
      this.serverUrl := serverUrl;
      this.clientVersion := clientVersion;
      this.cookies := cookies;
      new;
      this.spaceType := Undefined;
      this.spaceId := Undefined;
      this.propDefs := None;
      this.props := None;
      if spaceId.Truthy() {
        SetSpace(spaceId, Str("workspace"));
      }
    }

    method SetSpace(spaceId: JsValue, spaceType: JsValue)
      modifies this
      ensures this.spaceId == spaceId && this.spaceType == spaceType
      ensures cookies == old(cookies) && propDefs == old(propDefs) && props == old(props)
    {
      this.spaceType := spaceType;
      this.spaceId := spaceId;
    }

    /** `login`, given the server's answer: throws, or stores the stripped cookies. */
    method Login(res: LoginResponse) returns (error: Option<string>)
      modifies this
      ensures LoginOutcome(res).Err? ==> error == Some(LoginOutcome(res).message) && cookies == old(cookies)
      ensures LoginOutcome(res).Ok? ==> error.None? && cookies == LoginOutcome(res).value
      ensures spaceId == old(spaceId) && spaceType == old(spaceType) && propDefs == old(propDefs) && props == old(props)
    {
      if !res.ok {
        return Some("Login failed with status " + IntToString(res.status));
      }
      var rawCookies := res.setCookies;
      if |rawCookies| == 0 {
        return Some("No cookies received during login.");
      }
      cookies := CookieHeader(rawCookies);
      error := None;
    }

    /** `getPropDefs`, given the definitions doc: each of its maps read for the four `PROP_ATTRS`. */
    method GetPropDefs(fetched: Result<seq<map<string, JsValue>>>) returns (error: Option<string>)
      modifies this
      ensures fetched.Err? ==> error == Some(fetched.message) && propDefs == old(propDefs)
      ensures fetched.Ok? ==> error.None? && propDefs.Some? && |propDefs.value| == |fetched.value|
      ensures fetched.Ok? ==> forall i :: 0 <= i < |fetched.value| ==>
        propDefs.value[i] == DefFrom(fetched.value[i])
      ensures props == old(props) && cookies == old(cookies) && spaceId == old(spaceId) && spaceType == old(spaceType)
    {
      if fetched.Err? {
        return Some(fetched.message);
      }
      var maps := fetched.value;
      var defs: seq<PropDef> := [];
      var i := 0;
      while i < |maps|
        invariant 0 <= i <= |maps| && |defs| == i
        invariant forall k :: 0 <= k < i ==> defs[k] == DefFrom(maps[k])
      {
        var m := maps[i];
        defs := defs + [DefFrom(m)];
        i := i + 1;
      }
      propDefs := Some(defs);
      error := None;
    }

    /**
     * `getProps`, given the properties doc as (document id, property map)
     * pairs: the table of `PropsTable`, which is also stored as `props`.
     */
    method GetProps(fetched: Result<seq<(string, map<string, JsValue>)>>) returns (r: Result<map<string, map<string, JsValue>>>)
      modifies this
      ensures fetched.Err? ==> r == Err(fetched.message) && props == old(props)
      ensures fetched.Ok? ==> r == PropsTable(fetched.value, propDefs)
      ensures r.Ok? ==> props == Some(r.value)
      ensures r.Err? ==> props == old(props)
      ensures propDefs == old(propDefs) && cookies == old(cookies) && spaceId == old(spaceId) && spaceType == old(spaceType)
    {
      if fetched.Err? {
        return Err(fetched.message);
      }
      r := PropsTable(fetched.value, propDefs);
      if r.Ok? {
        props := Some(r.value);
      }
    }

    /**
     * `getDocProps(docId, fetch)`: reads the table afresh when `fetch` is
     * set, else takes the stored one, then looks the document up. Looking an
     * id up in a table never read throws; with no id it returns `undefined`.
     */
    method GetDocProps(docId: string, fetch: bool, fetched: Result<seq<(string, map<string, JsValue>)>>) returns (r: Result<PropsView>)
      modifies this
      ensures propDefs == old(propDefs) && cookies == old(cookies) && spaceId == old(spaceId) && spaceType == old(spaceType)
      ensures fetch && fetched.Err? ==> r == Err(fetched.message) && props == old(props)
      ensures fetch && fetched.Ok? && PropsTable(fetched.value, propDefs).Err? ==>
        r == Err(ReduceOnUndefined) && props == old(props)
      ensures fetch && fetched.Ok? && PropsTable(fetched.value, propDefs).Ok? ==>
        r.Ok? && props == Some(PropsTable(fetched.value, propDefs).value)
      ensures !fetch ==> props == old(props)
      ensures !fetch && props.None? ==> (r.Err? <==> docId != "") && (r.Ok? ==> r.value == NoTable)
      ensures !fetch && props.Some? ==> r.Ok?
      ensures r.Ok? && props.Some? && docId != "" ==> r.value == OneDoc(if docId in props.value then Some(props.value[docId]) else None)
      ensures r.Ok? && props.Some? && docId == "" ==> r.value == Table(props.value)
    {
      var table: map<string, map<string, JsValue>>;
      if fetch {
        var got := GetProps(fetched);
        if got.Err? {
          return Err(got.message);
        }
        table := got.value;
      } else {
        if props.None? {
          if docId != "" {
            return Err("Cannot read properties of undefined (reading '" + docId + "')");
          }
          return Ok(NoTable);
        }
        table := props.value;
      }
      if docId != "" {
        r := Ok(OneDoc(if docId in table then Some(table[docId]) else None));
      } else {
        r := Ok(Table(table));
      }
    }

    /**
     * `getDocument(docId)`, given the fetched document and the properties
     * doc: parse, set `id` and `url`, then spread the document's properties.
     */
    method GetDocument(docId: string, res: DocResponse, propsDoc: Result<seq<(string, map<string, JsValue>)>>, fuel: nat)
      returns (r: Result<ParsedDoc>)
      requires docId != ""
      modifies this
      ensures !res.ok ==> r == Err(Fetched(res).message) && props == old(props)
      ensures res.ok && ParseDocumentSpec(res.doc.entries, res.doc.guid, old(Ep()), fuel).Err? ==>
        r == ParseDocumentSpec(res.doc.entries, res.doc.guid, old(Ep()), fuel) && props == old(props)
      ensures res.ok && ParseDocumentSpec(res.doc.entries, res.doc.guid, old(Ep()), fuel).Ok? ==>
        var parsed := ParseDocumentSpec(res.doc.entries, res.doc.guid, old(Ep()), fuel).value;
        (propsDoc.Err? ==> r == Err(propsDoc.message) && props == old(props))
        && (propsDoc.Ok? && PropsTable(propsDoc.value, propDefs).Err? ==> r == Err(ReduceOnUndefined) && props == old(props))
        && (propsDoc.Ok? && PropsTable(propsDoc.value, propDefs).Ok? ==>
          var table := PropsTable(propsDoc.value, propDefs).value;
          props == Some(table)
          && r == Ok(ParsedDoc(
               DocumentMetadata(parsed.metadata, docId, old(Ep()), if docId in table then Some(table[docId]) else None),
               parsed.content, parsed.blobs)))
      ensures Ep() == old(Ep()) && propDefs == old(propDefs) && cookies == old(cookies) && spaceType == old(spaceType)
    {
      var doc := Fetched(res);
      if doc.Err? {
        return Err(doc.message);
      }
      var parsed := ParseDocument(doc.value, fuel);
      if parsed.Err? {
        return parsed;
      }
      var d := parsed.value;
      var view := GetDocProps(docId, true, propsDoc);
      if view.Err? {
        return Err(view.message);
      }
      r := Ok(ParsedDoc(DocumentMetadata(d.metadata, docId, Ep(), view.value.entry), d.content, d.blobs));
    }

    /** `parseDocument(doc)`: find the root, collect image blobs in a loop, then render. */
    method ParseDocument(doc: YDoc, fuel: nat) returns (r: Result<ParsedDoc>)
      ensures r == ParseDocumentSpec(doc.entries, doc.guid, Ep(), fuel)
    {
      var root := FindRoot(doc.entries);
      if root.None? {
        return Err(NoPage);
      }
      var blobs: map<string, string> := map[];
      var i := 0;
      while i < |doc.entries|
        invariant 0 <= i <= |doc.entries|
        invariant blobs == BlobsOf(doc.entries[..i], Ep())
      {
        var (blockId, block) := doc.entries[i];
        BlobsOfStep(doc.entries, i, Ep());
        if block.flavour == Str("affine:image") && block.sourceId.Truthy() {
          blobs := blobs[blockId := BlobUrl(Ep(), ToStr(block.sourceId))];
        }
        i := i + 1;
      }
      assert doc.entries[..i] == doc.entries;
      var metadata := map["guid" := Str(doc.guid), "title" := root.value.title];
      var content := RenderBlock(root, BlockMap(doc.entries), Ep(), fuel);
      if content.Err? {
        return Err(content.message);
      }
      r := Ok(ParsedDoc(metadata, content.value, blobs));
    }
  }
}
