/** The form document the designer edits: pages linked by `next` references,
    option lists that pages may refer to by name, and the sections and
    conditions this model treats as opaque. */
module Document {

  /** The usual Some/None wrapper; None also stands for JavaScript's `undefined`. */
  datatype Option<+T> = None | Some(value: T)

  /** One entry of a page's `next` array: the target path and an optional condition name. */
  datatype Link = Link(path: string, condition: Option<string>)

  /** A page's `next` field: an array of links, or anything else (absent, null, an object). */
  datatype Next = Links(links: seq<Link>) | NotArray

  /** A page: its path (the node identity), its outgoing links and the name of the list it uses, if any. */
  datatype Page = Page(path: string, next: Next, list: Option<string>)

  /** One row of an option list. */
  datatype Item = Item(text: string, value: string, description: string)

  /** An option list, referred to from pages by its name. */
  datatype ListDef = ListDef(name: string, title: string, kind: string, items: seq<Item>)

  /** The whole document; sections and conditions are kept only as names. */
  datatype Doc = Doc(pages: seq<Page>, lists: seq<ListDef>, sections: seq<string>, conditions: seq<string>)

  /** The set of paths the pages carry. */
  function Paths(pages: seq<Page>): set<string>
  {
    set p | p in pages :: p.path
  }

  /** The paths the links point at. */
  function Targets(links: seq<Link>): set<string>
  {
    set l | l in links :: l.path
  }

  /** No element occurs twice. */
  predicate NoDup<T(==)>(s: seq<T>)
  {
    forall i, j :: 0 <= i < j < |s| ==> s[i] != s[j]
  }

  /** The pages' paths, in page order. */
  function PathSeq(pages: seq<Page>): seq<string>
  {
    seq(|pages|, i requires 0 <= i < |pages| => pages[i].path)
  }

  /** No two pages share a path (the document's intended invariant). */
  predicate DistinctPaths(pages: seq<Page>)
  {
    NoDup(PathSeq(pages))
  }

  /** Distinct paths, page by page: no two positions carry the same path. */
  lemma DistinctPathsAt(pages: seq<Page>)
    ensures DistinctPaths(pages) <==> forall i, j :: 0 <= i < j < |pages| ==> pages[i].path != pages[j].path
  {
    assert forall i :: 0 <= i < |pages| ==> PathSeq(pages)[i] == pages[i].path;
  }
}
