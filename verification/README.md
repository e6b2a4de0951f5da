# Form designer: page-graph projection, save/load protocol and list editing

A Dafny model of three deterministic pieces of the form designer (a visual editor for a
page-flow document whose pages are linked by `next` references):

- **Page-graph projection** (`Layout`, `layout.dfy`). `getLayout` turns the pages into a
  directed graph for the layered layout library. Each page becomes a node keyed and
  labelled by its path and sized from its measured child element. Each `next` link whose
  target path exists becomes an edge. The library's node centres then become top-left
  boxes, and its edge routes become point lists. The graph keeps the graph library's
  rules: setting an existing node replaces its label but keeps its place in the node
  order, and setting an existing edge changes nothing. The layout library is the
  parameter `dagre`, an arbitrary function from the graph to a placement.
- **Save/load protocol**. `Client` (`client.dfy`) models the app's initial load and its
  `save` capability as a small state machine over the reply it receives. `Server`
  (`server.dfy`) models the `GET`/`PUT /api/data` handlers over a one-document store.
  The schema validator and the file write's outcome are parameters. `Protocol`
  (`protocol.dfy`) connects the two: as long as each save's reply reaches the app intact,
  and before the next save is sent, the app and the service never drift apart. A lost
  reply after the service has stored the new value does make them drift
  (`Protocol.LostReplyDrifts`).
- **List-item editing** (`ListItems`, `list_items.dfy`). It covers `headDuplicate`,
  JavaScript's `trim`, the blur handler's choice of which field to flag, adding and
  removing rows, and the cascading delete of a list.

`Document` (`document.dfy`) holds the shared datatypes: pages, links, lists and the
document.

Three behaviours of the code are worth knowing. The first and third are modelled as
written; the second is left out:

- The reload of the split-screen preview runs inside the save's promise chain, after the
  new document has been stored in the app's state. An exception there is caught by the
  save's own `catch`. The user then sees "Save failed" and `save` resolves to
  `undefined`, although the new document is already held. `Client.Save` models this
  through its `previewThrows` parameter.
- The deferred layout has no guard against a newer document arriving before it fires.
  The timer is left out of the model (see below).
- The initial load never looks at the response status. Any body that parses as a document
  becomes the held document (`Client.Load`), even on an error status.

## Model

| member | source | states |
|---|---|---|
| Layout.AddNodes | client/index.js:31-35 | the node pass leaves the library settings in place, adds no edges and at most one node per page; which nodes, labels, sizes and order it yields is stated by `Layout.AddNodesKeys`, `Layout.AddNodesListing`, `Layout.AddNodesSizes` and `Layout.AddNodesOrder` |
| Layout.AddLinks | client/index.js:40-46 | one page's links leave the nodes alone and only append edges, at most one per link; which edges is stated by `Layout.AddLinksEdges` |
| Layout.AddEdges | client/index.js:38-48 | the edge pass leaves the nodes alone and only appends edges; which edges is stated by `Layout.AddEdgesEdges` |
| Layout.Project | client/index.js:14-48 | the projected graph carries the `LR` settings and at most one node per page; its full shape is stated by `Layout.ProjectShape` |
| Layout.Find | client/index.js:42 | the lookup finds a page exactly when the target path is among the page paths, and what it finds carries that path |
| Layout.AddNodesKeys | client/index.js:31-35 | the node keys are exactly the set of page paths, and each node's label is its own path |
| Layout.AddNodesListing | client/index.js:31-35 | every node key is listed exactly once in the node order |
| Layout.AddNodesSizes | client/index.js:31-34 | the node for `pages[i]` takes its width and height from the i-th measured child; with repeated paths, the last page with that path wins |
| Layout.AddNodesOrder | client/index.js:31-35 | with distinct paths, the node order is the page order |
| Layout.AddLinksEdges | client/index.js:40-46 | one page's links add exactly the edges from that page to link targets that are page paths; edges are only appended and never repeated |
| Layout.AddEdgesEdges | client/index.js:38-48 | all pages' links add exactly the edges that some page with an array `next` asks for; nodes are untouched |
| Layout.ProjectShape | client/index.js:14-48 | the projected graph has the page paths as its nodes, with labels, sizes and (for distinct paths) order as above; its edges are, each once, exactly the non-dangling links, and both endpoints are nodes |
| Layout.DanglingLinkDropped | client/index.js:41-45 | a link to a path that no page has yields no edge |
| Layout.ExistingLinkKept | client/index.js:38-48 | every link whose target exists yields an edge from its page to that target |
| Layout.NonArrayNextAddsNoEdges | client/index.js:39 | with distinct paths, a page whose `next` is not an array is the source of no edge |
| Layout.PlaceNodes | client/index.js:60-66 | one placed node per graph node, in node order; each box keeps the node's label and size and is centred on the layout centre |
| Layout.CopyPoints | client/index.js:73-78 | the copied route has the same points in the same order |
| Layout.RouteEdges | client/index.js:68-80 | one record per graph edge, in edge order; each has source `e.v`, target `e.w` and the route's points unchanged |
| Layout.NodesFollowPages | client/index.js:31-66 | with distinct paths, placed node i belongs to page i: it has page i's path, the size measured from child i, and the centre of that path |
| Layout.ExampleFlow | client/index.js:38-48 | pages `/start` → `/middle` → `/end`, with an extra link from `/middle` to the absent `/missing`, project to three nodes in page order and exactly the two edges `/start→/middle` and `/middle→/end` |
| Layout.GetLayout | client/index.js:14-83 | the full pass: the graph laid out is the projection, so every page path has exactly one node, labelled (and sized from the last page with that path) as `Layout.ProjectShape` states; placed node i carries graph node i's label; the canvas bounds are the layout's; with distinct paths, placed node i is page i's node with page i's measured size; record k is graph edge k, with its source, its target and exactly its route, and the edge records are exactly the non-dangling links, each once |
| ListItems.HeadDuplicate | client/list-items.js:4-12 | answers j of the first equal pair i<j (ordered by i, then j); the answer lies in 1..length-1; it answers nothing exactly when all elements are distinct |
| ListItems.FirstDuplicateUnique | client/list-items.js:4-12 | the first duplicate pair is unique, so the answer is determined |
| ListItems.TrimStart | client/list-items.js:67 | leading white space is removed: the result is a suffix, the dropped part is all white space, and the result does not start with white space |
| ListItems.TrimEnd | client/list-items.js:67 | trailing white space is removed, in the same sense |
| ListItems.Trim | client/list-items.js:67-68 | the result is no longer than the input and neither starts nor ends with white space |
| ListItems.TrimFrame | client/list-items.js:67-68 | the trimmed text is a slice of the input, and everything cut away on either side is white space |
| ListItems.TrimIdempotent | client/list-items.js:67-68 | trimming an already trimmed string changes nothing |
| ListItems.TrimAll | client/list-items.js:67-68 | every text and value is trimmed, position by position |
| ListItems.OnBlur | client/list-items.js:64-89 | with fewer than two rows nothing is checked; otherwise duplicate trimmed texts flag the later field of the first text pair, and the values are checked only when the texts are distinct; with no duplicates nothing is flagged |
| ListItems.NewEditor | client/list-items.js:15-20 | the editor starts from the given items, or from no rows |
| ListItems.AddItem | client/list-items.js:22-26 | exactly one blank row `{text:'', value:'', description:''}` is appended; existing rows are unchanged |
| ListItems.Without | client/list-items.js:30 | filtering by index drops exactly position idx and keeps the order of the rest; an index that names no row drops nothing |
| ListItems.RemoveItem | client/list-items.js:28-32 | row idx goes, earlier rows stay in place and later rows move up by one; an out-of-range idx changes nothing |
| ListItems.AddThenRemove | client/list-items.js:22-32 | removing the row just added restores the editor |
| ListItems.SpliceOne | client/list-items.js:45 | removes exactly the element at an in-range start; a start of -1 removes the last element |
| ListItems.Unlink | client/list-items.js:49-51 | a page referring to the list loses exactly that reference; its path and `next` stay, and a page referring to another list (or none) is unchanged |
| ListItems.UnlinkAll | client/list-items.js:48-52 | no page refers to the list's name afterwards; the other pages and every path and `next` are unchanged |
| ListItems.DeleteList | client/list-items.js:34-52 | nothing happens unless confirmed; otherwise the copy lacks the list at its position; pages naming the list lose that reference; everything else is unchanged |
| Client.Load | client/index.js:349-354 | a parsed response, whatever its status, becomes the held document with `save` attached and the app loaded; otherwise the app stays as it was |
| Client.Save | client/index.js:356-387 | only an OK reply whose body parses replaces the held document, by the server's value with `save` reattached; any failure leaves the app unchanged, alerts, and resolves to `undefined`; a throwing preview reload alerts after the replacement |
| Client.ReplyDecides | client/index.js:365-367 | the state after a save does not depend on the candidate sent; only the reply matters |
| Client.ReadyThroughSaves | client/index.js:350-367 | a loaded app keeps a document with `save` attached through any series of saves |
| Client.DeleteThenEdit | client/list-items.js:54-61 | the edit callback after a delete receives the new held document exactly when the save was accepted and nothing threw, and `undefined` otherwise; an accepted save leaves the app holding the server's document even when the preview reload throws, and a failed one leaves the app unchanged |
| Server.Get | index.js:40-47 | `GET` answers 200 with the current document, in indented form exactly when `format` is set |
| Server.Put | index.js:61-76 | a write is attempted only after validation passes, and with the validated value; the reply is 200 exactly when validation and write both succeed, and then the store holds the validated value and returns it; every failure leaves the store unchanged and replies 401 `{ok:false, err:'Write file failed'}` |
| Server.FormatKeepsContent | index.js:41-46 | `format` changes only the serialisation, not the document served |
| Server.GetAfterPut | index.js:69-73 | after a successful `PUT`, `GET` serves exactly the value that `PUT` stored and returned |
| Server.GetAfterRejectedPut | index.js:74-75 | after a failed `PUT`, `GET` serves what it served before |
| Protocol.LoadSyncs | client/index.js:350-353 | the initial load leaves the app holding what `GET` serves |
| Protocol.SaveRoundTrip | client/index.js:356-367 | after one save through the service whose reply reaches the app intact, app and service agree: on acceptance both hold the validated value, and on rejection neither changes and the user is alerted |
| Protocol.LostReplyDrifts | index.js:69-73 | once the service has stored a new value, a reply lost on the way (the save's `catch` at client/index.js:383-386 keeps the old document) leaves the app and the service disagreeing |
| Protocol.SessionStaysSynced | client/index.js:360-367 | app and service stay in agreement through any series of saves, each finished, with its reply delivered intact, before the next is sent, whether the service accepts or rejects it |

## Left out

- The layered layout itself (`dagre.layout`: ranks, coordinates, edge routing, canvas bounds) is foreign library code. It is the uninterpreted parameter `dagre`, so nothing is claimed about rank order or about the bounds covering the nodes.
- The graph library is modelled only as far as `getLayout` uses it. Nodes are kept in insertion order. JavaScript lists integer-like object keys first, so paths such as `"1"` would be reordered. Paths here begin with `/`, so this is not modelled.
- A page list longer than the rendered children would make `el.children[index]` undefined and throw a `TypeError`. The model requires at least one measured size per page instead.
- The 200 ms `setTimeout` that schedules layout (client/index.js:173-183) is timing-based and has no supersession guard, so there is nothing sound to state.
- React rendering is UI and is not modelled: the `Lines` edge editor, the `Minimap` scaling, the `Menu` flags and tabs, and the `'px'` suffixes. Coordinates are exact reals, not floating point.
- Client.Load: a body that parses as JSON but is not a document (an error object, say) is treated like an unparsable body, so the app stays as it was. The code would hold that object and switch to the editor. The reply type carries only documents, and this service's error replies go with a non-OK status, which `Client.Save` rejects anyway.
- Protocol.SaveRoundTrip: the service's reply is assumed to reach the app intact. The handler stores the value before replying, so a network failure or an unparsable body after that leaves the app on the old document while the service holds the new one; `Protocol.LostReplyDrifts` shows this.
- Protocol.SessionStaysSynced: each reply is assumed to arrive intact, for the same reason as `Protocol.SaveRoundTrip`. Saves are also assumed not to overlap. Neither `save` nor the `PUT` handler serialises requests, and the handler awaits the file write between validation and assignment. So two overlapping saves whose replies arrive in the other order leave the app holding the earlier value while the service holds the later one.
- `fetch`, `res.json()`, the `FileReader` upload and `window.alert` are browser I/O. They appear only as the reply the model receives and the `alerted` flag.
- The preview-reload conditions (playground mode, parent path `/split`, two frames) are browser global state. Only whether the reload throws is kept, as `previewThrows`.
- The joi schema and `fs.writeFile` are the parameters `validate` and `writeOk`. The backing file's contents after a failed write are not modelled.
- Hapi's route and view registration and its own query/payload validation (the 400 replies before a handler runs) are framework plumbing. Content-type headers are not modelled.
- `setCustomValidity` and DOM form access in the blur handler are not modelled. The model answers which field would be flagged.
- `window.confirm` is the `confirmed` parameter. `console.log` and `console.error` output is not modelled.
- `indexOf` finds lists by object identity, which a value model cannot express. The list's position (or -1) is passed in as `at`.
