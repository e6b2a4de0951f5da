/** The page-graph projection of `getLayout`: pages become nodes of a directed
    graph keyed by path, `next` links whose target exists become edges, the
    layered layout library places the graph, and its node centres and edge
    routes are turned into top-left boxes and point lists for rendering.

    The graph follows the graph library's own rules: setting a node that
    already exists replaces its label but keeps its place in the node order,
    and setting an edge that already exists changes nothing. The layout library
    itself is not modelled: it is the parameter `dagre`, an arbitrary function
    from the graph to a placement. */
module Layout {
  import opened Document

  /** A rendered page box's `offsetWidth` and `offsetHeight`, in whole pixels. */
  datatype Size = Size(width: nat, height: nat)

  /** The graph-level options handed to the layout library. */
  datatype GraphLabel = GraphLabel(rankdir: string, marginx: int, marginy: int, ranksep: int)

  /** Left-to-right ranks, 50px/150px margins, 160px between ranks. */
  const Settings: GraphLabel := GraphLabel("LR", 50, 150, 160)

  /** The label object stored for a node. */
  datatype NodeLabel = NodeLabel(name: string, width: nat, height: nat)

  /** A directed edge (source path, target path); every edge label is the empty object. */
  type Edge = (string, string)

  /** The layout library's graph: node keys in insertion order, their labels, and the edges in insertion order. */
  datatype Graph = Graph(settings: GraphLabel, order: seq<string>, labels: map<string, NodeLabel>, edges: seq<Edge>)

  function NewGraph(): Graph
  {
    Graph(Settings, [], map[], [])
  }

  function SetNode(g: Graph, v: string, n: NodeLabel): Graph
  {
    if v in g.labels then g.(labels := g.labels[v := n])
    else g.(order := g.order + [v], labels := g.labels[v := n])
  }

  function SetEdge(g: Graph, v: string, w: string): Graph
  {
    if (v, w) in g.edges then g else g.(edges := g.edges + [(v, w)])
  }

  /** `pages.find(page => page.path === path)`: the first page with that path. */
  function Find(pages: seq<Page>, path: string): (r: Option<Page>)
    ensures r.Some? <==> path in Paths(pages)
    ensures r.Some? ==> r.value in pages && r.value.path == path
  {
    if |pages| == 0 then None
    else if pages[0].path == path then Some(pages[0])
    else
      assert Paths(pages) == {pages[0].path} + Paths(pages[1..]) by {
        assert pages == [pages[0]] + pages[1..];
        forall p | p in pages ensures p == pages[0] || p in pages[1..] { }
      }
      Find(pages[1..], path)
  }

  /** The label the node for `page` gets when its rendered box measured `size`. */
  function Measure(page: Page, size: Size): NodeLabel
  {
    NodeLabel(page.path, size.width, size.height)
  }

  /** No later page repeats the path of `pages[i]`, so its label is the one that stays. */
  predicate LastOfPath(pages: seq<Page>, i: int)
    requires 0 <= i < |pages|
  {
    forall k :: i < k < |pages| ==> pages[k].path != pages[i].path
  }

  /** First pass: one node per page, sized from the page's measured child element. */
  function AddNodes(pages: seq<Page>, sizes: seq<Size>): (r: Graph)
    requires |pages| <= |sizes|
    ensures r.settings == Settings && r.edges == []
    ensures |r.order| <= |pages|
  {
    if |pages| == 0 then NewGraph()
    else
      var n := |pages| - 1;
      SetNode(AddNodes(pages[..n], sizes), pages[n].path, Measure(pages[n], sizes[n]))
  }

  /** Edges for one page's `next` array, skipping targets that are not among the pages. */
  function AddLinks(g: Graph, pages: seq<Page>, from: string, links: seq<Link>): (r: Graph)
    ensures r.settings == g.settings && r.order == g.order && r.labels == g.labels
    ensures g.edges <= r.edges && |r.edges| <= |g.edges| + |links|
  {
    if |links| == 0 then g
    else
      var n := |links| - 1;
      var g' := AddLinks(g, pages, from, links[..n]);
      if Find(pages, links[n].path).Some? then SetEdge(g', from, links[n].path) else g'
  }

  /** Second pass: the edges of every page whose `next` is an array. */
  function AddEdges(g: Graph, pages: seq<Page>, ps: seq<Page>): (r: Graph)
    ensures r.settings == g.settings && r.order == g.order && r.labels == g.labels
    ensures g.edges <= r.edges
  {
    if |ps| == 0 then g
    else
      var n := |ps| - 1;
      var g' := AddEdges(g, pages, ps[..n]);
      match ps[n].next
      case Links(links) => AddLinks(g', pages, ps[n].path, links)
      case NotArray => g'
  }

  /** The graph `getLayout` hands to the layout library. */
  function Project(pages: seq<Page>, sizes: seq<Size>): (r: Graph)
    requires |pages| <= |sizes|
    ensures r.settings == Settings
    ensures |r.order| <= |pages|
  {
    AddEdges(AddNodes(pages, sizes), pages, pages)
  }

  /** `e` is an edge page `p` asks for: `p.next` is an array holding a link to
      `e.1`, and some page has the path `e.1`. */
  predicate PageEdge(pages: seq<Page>, p: Page, e: Edge)
  {
    p.next.Links? && e.0 == p.path && e.1 in Targets(p.next.links) && e.1 in Paths(pages)
  }

  /** Reference definition of the projected edges: some page asks for `e`. */
  predicate LinkEdge(pages: seq<Page>, e: Edge)
  {
    exists p :: p in pages && PageEdge(pages, p, e)
  }

  lemma PathsSnoc(ps: seq<Page>, p: Page)
    ensures Paths(ps + [p]) == Paths(ps) + {p.path}
  {
  }

  lemma TargetsSnoc(ls: seq<Link>, l: Link)
    ensures Targets(ls + [l]) == Targets(ls) + {l.path}
  {
  }

  /** The node pass: the node keys are exactly the page paths, each labelled
      with its own path. */
  lemma {:induction false} AddNodesKeys(pages: seq<Page>, sizes: seq<Size>)
    requires |pages| <= |sizes|
    ensures AddNodes(pages, sizes).settings == Settings
    ensures AddNodes(pages, sizes).edges == []
    ensures AddNodes(pages, sizes).labels.Keys == Paths(pages)
    ensures forall v :: v in AddNodes(pages, sizes).labels ==> AddNodes(pages, sizes).labels[v].name == v
  {
    if |pages| > 0 {
      var n := |pages| - 1;
      var pre := pages[..n];
      AddNodesKeys(pre, sizes);
      var g0 := AddNodes(pre, sizes);
      var v := pages[n].path;
      var labels := g0.labels[v := Measure(pages[n], sizes[n])];
      assert AddNodes(pages, sizes).labels == labels;
      assert pages == pre + [pages[n]];
      PathsSnoc(pre, pages[n]);
      assert labels.Keys == g0.labels.Keys + {v};
      forall u | u in labels ensures labels[u].name == u {
        if u != v {
          assert labels[u] == g0.labels[u];
        }
      }
    }
  }

  /** The node pass: every node key is listed exactly once in the node order. */
  lemma {:induction false} AddNodesListing(pages: seq<Page>, sizes: seq<Size>)
    requires |pages| <= |sizes|
    ensures NoDup(AddNodes(pages, sizes).order)
    ensures forall v :: v in AddNodes(pages, sizes).order <==> v in AddNodes(pages, sizes).labels
  {
    if |pages| > 0 {
      var n := |pages| - 1;
      var pre := pages[..n];
      AddNodesListing(pre, sizes);
      var g0 := AddNodes(pre, sizes);
      var v := pages[n].path;
      if v !in g0.labels {
        assert v !in g0.order;
        assert AddNodes(pages, sizes).order == g0.order + [v];
      }
    }
  }

  /** The node pass: a page whose path no later page repeats gives its node
      the size measured for that page's child element. */
  lemma {:induction false} AddNodesSizes(pages: seq<Page>, sizes: seq<Size>)
    requires |pages| <= |sizes|
    ensures forall i :: 0 <= i < |pages| && LastOfPath(pages, i) ==>
      pages[i].path in AddNodes(pages, sizes).labels &&
      AddNodes(pages, sizes).labels[pages[i].path] == Measure(pages[i], sizes[i])
  {
    if |pages| > 0 {
      var n := |pages| - 1;
      var pre := pages[..n];
      AddNodesSizes(pre, sizes);
      var g := AddNodes(pages, sizes);
      forall i | 0 <= i < |pages| && LastOfPath(pages, i)
        ensures pages[i].path in g.labels && g.labels[pages[i].path] == Measure(pages[i], sizes[i])
      {
        if i < n {
          assert pages[n].path != pages[i].path;
          assert LastOfPath(pre, i);
        }
      }
    }
  }

  /** The node pass: with distinct paths the node order is the page order. */
  lemma {:induction false} AddNodesOrder(pages: seq<Page>, sizes: seq<Size>)
    requires |pages| <= |sizes|
    requires DistinctPaths(pages)
    ensures AddNodes(pages, sizes).order == PathSeq(pages)
  {
    if |pages| > 0 {
      var n := |pages| - 1;
      var pre := pages[..n];
      DistinctPathsAt(pages);
      DistinctPathsAt(pre);
      AddNodesOrder(pre, sizes);
      AddNodesKeys(pre, sizes);
      forall q | q in pre ensures q.path != pages[n].path {
        var k :| 0 <= k < n && pre[k] == q;
      }
      assert PathSeq(pages) == PathSeq(pre) + [pages[n].path];
    }
  }

  /** One page's links: edges are only appended, none is repeated, and an edge
      is added exactly when it leaves `from` towards a link target that is the
      path of some page. */
  lemma {:induction false} AddLinksEdges(g: Graph, pages: seq<Page>, from: string, links: seq<Link>)
    ensures AddLinks(g, pages, from, links).settings == g.settings
    ensures AddLinks(g, pages, from, links).order == g.order
    ensures AddLinks(g, pages, from, links).labels == g.labels
    ensures |g.edges| <= |AddLinks(g, pages, from, links).edges|
    ensures AddLinks(g, pages, from, links).edges[..|g.edges|] == g.edges
    ensures NoDup(g.edges) ==> NoDup(AddLinks(g, pages, from, links).edges)
    ensures forall e :: e in AddLinks(g, pages, from, links).edges <==>
      e in g.edges || (e.0 == from && e.1 in Targets(links) && e.1 in Paths(pages))
  {
    if |links| > 0 {
      var n := |links| - 1;
      AddLinksEdges(g, pages, from, links[..n]);
      assert links == links[..n] + [links[n]];
      TargetsSnoc(links[..n], links[n]);
      var g' := AddLinks(g, pages, from, links[..n]);
      if Find(pages, links[n].path).Some? {
        assert g'.edges[..|g.edges|] == g.edges;
        assert (g'.edges + [(from, links[n].path)])[..|g.edges|] == g'.edges[..|g.edges|];
      }
    }
  }

  /** All pages' links: the edges added are exactly those some page in `ps` asks for. */
  lemma {:induction false} AddEdgesEdges(g: Graph, pages: seq<Page>, ps: seq<Page>)
    ensures AddEdges(g, pages, ps).settings == g.settings
    ensures AddEdges(g, pages, ps).order == g.order
    ensures AddEdges(g, pages, ps).labels == g.labels
    ensures NoDup(g.edges) ==> NoDup(AddEdges(g, pages, ps).edges)
    ensures forall e :: e in AddEdges(g, pages, ps).edges <==>
      e in g.edges || exists p :: p in ps && PageEdge(pages, p, e)
  {
    if |ps| > 0 {
      var n := |ps| - 1;
      var pre := ps[..n];
      AddEdgesEdges(g, pages, pre);
      assert ps == pre + [ps[n]];
      var g' := AddEdges(g, pages, pre);
      var r := AddEdges(g, pages, ps);
      match ps[n].next
      case Links(links) =>
        AddLinksEdges(g', pages, ps[n].path, links);
        forall e ensures e in r.edges <==> e in g.edges || exists p :: p in ps && PageEdge(pages, p, e)
        {
          if PageEdge(pages, ps[n], e) {
            assert e in r.edges;
          }
          if e in r.edges && e !in g.edges && !PageEdge(pages, ps[n], e) {
            var p :| p in pre && PageEdge(pages, p, e);
            assert p in ps;
          }
          if exists p :: p in ps && PageEdge(pages, p, e) {
            var p :| p in ps && PageEdge(pages, p, e);
            if p != ps[n] {
              assert p in pre;
            }
          }
        }
      case NotArray =>
        forall e ensures e in r.edges <==> e in g.edges || exists p :: p in ps && PageEdge(pages, p, e)
        {
          if exists p :: p in ps && PageEdge(pages, p, e) {
            var p :| p in ps && PageEdge(pages, p, e);
            assert p != ps[n];
            assert p in pre;
          }
        }
    }
  }

  /** The projected graph: its nodes are exactly the page paths (each labelled
      with its path and listed once, in page order when paths are distinct),
      each node is sized from its page's measured child, and its edges are
      exactly the non-dangling `next` links, each once, between existing nodes. */
  lemma ProjectShape(pages: seq<Page>, sizes: seq<Size>)
    requires |pages| <= |sizes|
    ensures Project(pages, sizes).settings == Settings
    ensures Project(pages, sizes).labels.Keys == Paths(pages)
    ensures forall v :: v in Project(pages, sizes).labels ==> Project(pages, sizes).labels[v].name == v
    ensures NoDup(Project(pages, sizes).order)
    ensures forall v :: v in Project(pages, sizes).order <==> v in Paths(pages)
    ensures forall i :: 0 <= i < |pages| && LastOfPath(pages, i) ==>
      Project(pages, sizes).labels[pages[i].path] == Measure(pages[i], sizes[i])
    ensures DistinctPaths(pages) ==> Project(pages, sizes).order == PathSeq(pages)
    ensures NoDup(Project(pages, sizes).edges)
    ensures forall e :: e in Project(pages, sizes).edges <==> LinkEdge(pages, e)
    ensures forall e :: e in Project(pages, sizes).edges ==> e.0 in Paths(pages) && e.1 in Paths(pages)
  {
    AddNodesKeys(pages, sizes);
    AddNodesListing(pages, sizes);
    AddNodesSizes(pages, sizes);
    if DistinctPaths(pages) {
      AddNodesOrder(pages, sizes);
    }
    AddEdgesEdges(AddNodes(pages, sizes), pages, pages);
    forall e | e in Project(pages, sizes).edges ensures e.0 in Paths(pages) {
      var p :| p in pages && PageEdge(pages, p, e);
    }
  }

  /** A `next` target that no page carries never becomes an edge. */
  lemma DanglingLinkDropped(pages: seq<Page>, sizes: seq<Size>, from: string, to: string)
    requires |pages| <= |sizes|
    requires to !in Paths(pages)
    ensures (from, to) !in Project(pages, sizes).edges
  {
    ProjectShape(pages, sizes);
  }

  /** Every link of a page whose target exists becomes an edge from that page. */
  lemma ExistingLinkKept(pages: seq<Page>, sizes: seq<Size>, i: int, k: int)
    requires |pages| <= |sizes|
    requires 0 <= i < |pages| && pages[i].next.Links?
    requires 0 <= k < |pages[i].next.links|
    requires pages[i].next.links[k].path in Paths(pages)
    ensures (pages[i].path, pages[i].next.links[k].path) in Project(pages, sizes).edges
  {
    ProjectShape(pages, sizes);
    assert PageEdge(pages, pages[i], (pages[i].path, pages[i].next.links[k].path));
  }

  /** With distinct paths, a page whose `next` is not an array is the source of no edge. */
  lemma NonArrayNextAddsNoEdges(pages: seq<Page>, sizes: seq<Size>, i: int)
    requires |pages| <= |sizes|
    requires DistinctPaths(pages)
    requires 0 <= i < |pages| && pages[i].next.NotArray?
    ensures forall e :: e in Project(pages, sizes).edges ==> e.0 != pages[i].path
  {
    ProjectShape(pages, sizes);
    DistinctPathsAt(pages);
    forall e | e in Project(pages, sizes).edges ensures e.0 != pages[i].path {
      var p :| p in pages && PageEdge(pages, p, e);
      var j :| 0 <= j < |pages| && pages[j] == p;
      if j != i {
        assert pages[j].path != pages[i].path;
      }
    }
  }

  /** A point `{x, y}`. */
  datatype Point = Point(x: real, y: real)

  /** What the layout library computes for a graph: canvas bounds, a centre per
      node and a route per edge. */
  datatype Placement = Placement(width: real, height: real, centre: string -> Point, route: Edge -> seq<Point>)

  /** A node ready for absolute positioning: its label, its centre, and the top-left corner of its box. */
  datatype PlacedNode = PlacedNode(node: NodeLabel, centre: Point, top: real, left: real)

  /** A drawable edge. */
  datatype EdgeRoute = EdgeRoute(source: string, target: string, points: seq<Point>)

  /** The `pos` object: canvas bounds, placed nodes in graph node order, routed edges in graph edge order. */
  datatype Positions = Positions(width: real, height: real, nodes: seq<PlacedNode>, edges: seq<EdgeRoute>)

  /** The box at (`left`, `top`) of the node's size has the layout centre as its centre. */
  predicate Centred(n: PlacedNode)
  {
    n.left + n.node.width as real / 2.0 == n.centre.x && n.top + n.node.height as real / 2.0 == n.centre.y
  }

  /** Converts each laid-out node, in graph node order, into a top-left box. */
  method PlaceNodes(g: Graph, place: Placement) returns (nodes: seq<PlacedNode>)
    requires forall v :: v in g.order ==> v in g.labels
    ensures |nodes| == |g.order|
    ensures forall i :: 0 <= i < |nodes| ==>
      nodes[i].node == g.labels[g.order[i]] && nodes[i].centre == place.centre(g.order[i]) && Centred(nodes[i])
  {
    nodes := [];
    var i := 0;
    while i < |g.order|
      invariant 0 <= i <= |g.order|
      invariant |nodes| == i
      invariant forall k :: 0 <= k < i ==>
        nodes[k].node == g.labels[g.order[k]] && nodes[k].centre == place.centre(g.order[k]) && Centred(nodes[k])
    {
      var node := g.labels[g.order[i]];
      var c := place.centre(g.order[i]);
      var top := c.y - node.height as real / 2.0;
      var left := c.x - node.width as real / 2.0;
      nodes := nodes + [PlacedNode(node, c, top, left)];
      i := i + 1;
    }
  }

  /** Copies a route point by point into fresh `{y, x}` objects. */
  method CopyPoints(ps: seq<Point>) returns (qs: seq<Point>)
    ensures |qs| == |ps|
    ensures forall k :: 0 <= k < |ps| ==> qs[k].x == ps[k].x && qs[k].y == ps[k].y
  {
    qs := [];
    var k := 0;
    while k < |ps|
      invariant 0 <= k <= |ps|
      invariant |qs| == k
      invariant forall j :: 0 <= j < k ==> qs[j].x == ps[j].x && qs[j].y == ps[j].y
    {
      qs := qs + [Point(ps[k].x, ps[k].y)];
      k := k + 1;
    }
  }

  /** Converts each edge, in graph edge order, into its source, target and route. */
  method RouteEdges(g: Graph, place: Placement) returns (edges: seq<EdgeRoute>)
    ensures |edges| == |g.edges|
    ensures forall k :: 0 <= k < |edges| ==>
      (edges[k].source, edges[k].target) == g.edges[k] && edges[k].points == place.route(g.edges[k])
  {
    edges := [];
    var k := 0;
    while k < |g.edges|
      invariant 0 <= k <= |g.edges|
      invariant |edges| == k
      invariant forall j :: 0 <= j < k ==>
        (edges[j].source, edges[j].target) == g.edges[j] && edges[j].points == place.route(g.edges[j])
    {
      var e := g.edges[k];
      var points := CopyPoints(place.route(e));
      assert points == place.route(e);
      edges := edges + [EdgeRoute(e.0, e.1, points)];
      k := k + 1;
    }
  }

  /** Every page path is the name of some placed node, and nothing else is. */
  lemma NodesCoverPaths(pages: seq<Page>, order: seq<string>, nodes: seq<PlacedNode>)
    requires forall v :: v in order <==> v in Paths(pages)
    requires |nodes| == |order|
    requires forall i :: 0 <= i < |nodes| ==> nodes[i].node.name == order[i]
    ensures forall v :: v in Paths(pages) <==> exists i :: 0 <= i < |nodes| && nodes[i].node.name == v
  {
  }

  /** Every projected edge has a routed record. */
  lemma EdgesCoverLinks(pages: seq<Page>, g: Graph, edges: seq<EdgeRoute>)
    requires forall e :: e in g.edges <==> LinkEdge(pages, e)
    requires |edges| == |g.edges|
    requires forall k :: 0 <= k < |edges| ==> (edges[k].source, edges[k].target) == g.edges[k]
    ensures forall e :: LinkEdge(pages, e) ==> exists k :: 0 <= k < |edges| && (edges[k].source, edges[k].target) == e
  {
  }

  /** Every routed record joins a pair that some page links, and no pair is routed twice. */
  lemma EdgeRecordsAreLinks(pages: seq<Page>, g: Graph, edges: seq<EdgeRoute>)
    requires forall e :: e in g.edges <==> LinkEdge(pages, e)
    requires NoDup(g.edges)
    requires |edges| == |g.edges|
    requires forall k :: 0 <= k < |edges| ==> (edges[k].source, edges[k].target) == g.edges[k]
    ensures forall k :: 0 <= k < |edges| ==> LinkEdge(pages, (edges[k].source, edges[k].target))
    ensures forall k, j :: 0 <= k < j < |edges| ==> (edges[k].source, edges[k].target) != (edges[j].source, edges[j].target)
  {
  }

  /** With distinct paths, placed node i is page i's node, measured from child i and placed at its path's centre. */
  lemma NodesFollowPages(pages: seq<Page>, sizes: seq<Size>, place: Placement, nodes: seq<PlacedNode>)
    requires |pages| <= |sizes|
    requires DistinctPaths(pages)
    requires |nodes| == |Project(pages, sizes).order|
    requires forall i :: 0 <= i < |nodes| ==> Project(pages, sizes).order[i] in Project(pages, sizes).labels
    requires forall i :: 0 <= i < |nodes| ==>
      nodes[i].node == Project(pages, sizes).labels[Project(pages, sizes).order[i]] &&
      nodes[i].centre == place.centre(Project(pages, sizes).order[i])
    ensures |nodes| == |pages|
    ensures forall i :: 0 <= i < |pages| ==>
      nodes[i].node == Measure(pages[i], sizes[i]) && nodes[i].centre == place.centre(pages[i].path)
  {
    ProjectShape(pages, sizes);
    DistinctPathsAt(pages);
    forall i | 0 <= i < |pages|
      ensures nodes[i].node == Measure(pages[i], sizes[i])
    {
      assert LastOfPath(pages, i);
    }
  }

  /** The facts about the projected graph that the full pass passes on: its
      nodes are the page paths, each listed once, and its edges are the
      non-dangling links, each once. */
  lemma ProjectBasics(pages: seq<Page>, sizes: seq<Size>)
    requires |pages| <= |sizes|
    ensures Project(pages, sizes).labels.Keys == Paths(pages)
    ensures NoDup(Project(pages, sizes).order)
    ensures forall v :: v in Project(pages, sizes).order ==> v in Project(pages, sizes).labels
    ensures NoDup(Project(pages, sizes).edges)
    ensures forall e :: e in Project(pages, sizes).edges <==> LinkEdge(pages, e)
  {
    ProjectShape(pages, sizes);
  }

  /** The placed nodes of the projected graph, read back against the pages:
      node i is the i-th node of the graph with its own label, every page path
      has exactly one node, and with distinct paths node i is page i's. */
  lemma PlacedNodesFacts(pages: seq<Page>, sizes: seq<Size>, place: Placement, nodes: seq<PlacedNode>)
    requires |pages| <= |sizes|
    requires |nodes| == |Project(pages, sizes).order|
    requires forall i :: 0 <= i < |nodes| ==>
      Project(pages, sizes).order[i] in Project(pages, sizes).labels &&
      nodes[i].node == Project(pages, sizes).labels[Project(pages, sizes).order[i]] &&
      nodes[i].centre == place.centre(Project(pages, sizes).order[i]) && Centred(nodes[i])
    ensures forall i :: 0 <= i < |nodes| ==> nodes[i].node.name == Project(pages, sizes).order[i]
    ensures forall v :: v in Paths(pages) <==> exists i :: 0 <= i < |nodes| && nodes[i].node.name == v
    ensures DistinctPaths(pages) ==> |nodes| == |pages| && forall i :: 0 <= i < |pages| ==>
      nodes[i].node == Measure(pages[i], sizes[i]) && nodes[i].centre == place.centre(pages[i].path)
  {
    var g := Project(pages, sizes);
    ProjectShape(pages, sizes);
    NodesCoverPaths(pages, g.order, nodes);
    if DistinctPaths(pages) {
      NodesFollowPages(pages, sizes, place, nodes);
    }
  }

  /** `getLayout`: project the pages, let the layout library place the graph,
      and convert the result. With distinct paths the placed nodes line up
      index by index with the pages (what the page boxes rely on); the edge
      records are exactly the non-dangling links, each once, routed as placed. */
  method GetLayout(pages: seq<Page>, sizes: seq<Size>, dagre: Graph -> Placement) returns (g: Graph, pos: Positions)
    requires |pages| <= |sizes|
    ensures g == Project(pages, sizes)
    ensures g.settings == Settings
    ensures g.labels.Keys == Paths(pages)
    ensures NoDup(g.order)
    ensures forall e :: e in g.edges <==> LinkEdge(pages, e)
    ensures pos.width == dagre(g).width && pos.height == dagre(g).height
    ensures |pos.nodes| == |g.order|
    ensures forall i :: 0 <= i < |pos.nodes| ==>
      pos.nodes[i].node.name == g.order[i] && pos.nodes[i].centre == dagre(g).centre(g.order[i]) && Centred(pos.nodes[i])
    ensures forall i :: 0 <= i < |pos.nodes| ==> g.order[i] in g.labels && pos.nodes[i].node == g.labels[g.order[i]]
    ensures forall v :: v in Paths(pages) <==> exists i :: 0 <= i < |pos.nodes| && pos.nodes[i].node.name == v
    ensures DistinctPaths(pages) ==> |pos.nodes| == |pages| && forall i :: 0 <= i < |pages| ==>
      pos.nodes[i].node == Measure(pages[i], sizes[i]) && pos.nodes[i].centre == dagre(g).centre(pages[i].path)
    ensures |pos.edges| == |g.edges|
    ensures forall k :: 0 <= k < |pos.edges| ==>
      && (pos.edges[k].source, pos.edges[k].target) == g.edges[k]
      && LinkEdge(pages, g.edges[k])
      && pos.edges[k].points == dagre(g).route(g.edges[k])
    ensures forall e :: LinkEdge(pages, e) ==> exists k :: 0 <= k < |pos.edges| && (pos.edges[k].source, pos.edges[k].target) == e
    ensures forall k, j :: 0 <= k < j < |pos.edges| ==>
      (pos.edges[k].source, pos.edges[k].target) != (pos.edges[j].source, pos.edges[j].target)
  {
    g := Project(pages, sizes);
    ProjectBasics(pages, sizes);
    var place := dagre(g);
    var nodes := PlaceNodes(g, place);
    var edges := RouteEdges(g, place);
    pos := Positions(place.width, place.height, nodes, edges);
    PlacedNodesFacts(pages, sizes, place, nodes);
    EdgesCoverLinks(pages, g, edges);
    EdgeRecordsAreLinks(pages, g, edges);
  }

  /** The pages of the example flow: `/start` links to `/middle`, which links
      to `/end` and to the absent `/missing`; `/end` has no `next` array. */
  function ExamplePages(): seq<Page>
  {
    [Page("/start", Links([Link("/middle", None)]), None),
     Page("/middle", Links([Link("/end", None), Link("/missing", None)]), None),
     Page("/end", NotArray, None)]
  }

  /** The example's node pass: three nodes in page order, each measured from its own child. */
  lemma ExampleNodes(sizes: seq<Size>)
    requires |sizes| == 3
    ensures AddNodes(ExamplePages(), sizes) == Graph(Settings, ["/start", "/middle", "/end"],
      map["/start" := Measure(ExamplePages()[0], sizes[0]), "/middle" := Measure(ExamplePages()[1], sizes[1]),
          "/end" := Measure(ExamplePages()[2], sizes[2])], [])
  {
    var pages := ExamplePages();
    var p0, p1 := pages[0], pages[1];
    assert pages[..2] == [p0, p1] && pages[..2][..1] == [p0] && [p0][..0] == [];
    assert AddNodes([p0], sizes) == Graph(Settings, ["/start"], map["/start" := Measure(p0, sizes[0])], []);
    assert AddNodes([p0, p1], sizes).order == ["/start", "/middle"];
  }

  /** In the example, `/middle` and `/end` are pages and `/missing` is not. */
  lemma ExampleTargets()
    ensures Find(ExamplePages(), "/middle").Some?
    ensures Find(ExamplePages(), "/end").Some?
    ensures Find(ExamplePages(), "/missing").None?
  {
    var pages := ExamplePages();
    assert pages[1].path == "/middle" && pages[2].path == "/end";
    assert "/missing" !in Paths(pages);
  }

  /** The links of `/start` add the edge towards `/middle` to a graph without edges. */
  lemma ExampleStartLinks(g0: Graph)
    requires g0.edges == []
    ensures AddLinks(g0, ExamplePages(), "/start", [Link("/middle", None)]).edges == [("/start", "/middle")]
  {
    var l0 := [Link("/middle", None)];
    ExampleTargets();
    assert l0[..0] == [];
    assert AddLinks(g0, ExamplePages(), "/start", l0[..0]) == g0;
    assert SetEdge(g0, "/start", "/middle").edges == [("/start", "/middle")];
  }

  /** The links of `/middle` add the edge towards `/end` and nothing towards `/missing`. */
  lemma ExampleMiddleLinks(g1: Graph)
    requires g1.edges == [("/start", "/middle")]
    ensures AddLinks(g1, ExamplePages(), "/middle", [Link("/end", None), Link("/missing", None)]).edges
      == [("/start", "/middle"), ("/middle", "/end")]
  {
    var links := [Link("/end", None), Link("/missing", None)];
    ExampleTargets();
    assert links[..1] == [Link("/end", None)] && links[..1][..0] == [];
    assert AddLinks(g1, ExamplePages(), "/middle", links[..1][..0]) == g1;
    assert SetEdge(g1, "/middle", "/end").edges == [("/start", "/middle"), ("/middle", "/end")];
  }

  /** The example's edge pass over any graph without edges: the two links
      whose targets exist, in page order, and nothing towards `/missing`. */
  lemma ExampleEdges(g0: Graph)
    requires g0.edges == []
    ensures AddEdges(g0, ExamplePages(), ExamplePages()).edges == [("/start", "/middle"), ("/middle", "/end")]
  {
    var pages := ExamplePages();
    var p0, p1 := pages[0], pages[1];
    assert pages[..2] == [p0, p1] && pages[..2][..1] == [p0] && [p0][..0] == [];
    ExampleStartLinks(g0);
    var g1 := AddLinks(g0, pages, "/start", [Link("/middle", None)]);
    ExampleMiddleLinks(g1);
    assert AddEdges(g0, pages, [p0]) == g1;
  }

  /** A three-page flow whose middle page also links to a path no page has:
      three nodes in page order, two edges, and nothing towards the missing page. */
  lemma ExampleFlow()
    ensures var g := Project(ExamplePages(), [Size(100, 40), Size(120, 40), Size(80, 40)]);
      && g.order == ["/start", "/middle", "/end"]
      && "/middle" in g.labels && g.labels["/middle"] == NodeLabel("/middle", 120, 40)
      && g.edges == [("/start", "/middle"), ("/middle", "/end")]
  {
    var sizes := [Size(100, 40), Size(120, 40), Size(80, 40)];
    ExampleNodes(sizes);
    ExampleEdges(AddNodes(ExamplePages(), sizes));
  }
}
