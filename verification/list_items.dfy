/** The list-item editor: duplicate detection over the item texts and values,
    the decision of which field the blur handler flags, adding and removing
    item rows, and the cascading delete of a whole list. */
module ListItems {
  import opened Document

  /** `(i, j)` is the first equal pair `i < j`, ordered by `i` and then by `j`. */
  predicate FirstDuplicate(a: seq<string>, i: int, j: int)
  {
    && 0 <= i < j < |a|
    && a[i] == a[j]
    && (forall i', j' :: 0 <= i' < j' < |a| && a[i'] == a[j'] ==> i < i' || (i == i' && j <= j'))
  }

  /** At most one pair is the first. */
  lemma FirstDuplicateUnique(a: seq<string>, i: int, j: int, i': int, j': int)
    requires FirstDuplicate(a, i, j) && FirstDuplicate(a, i', j')
    ensures i == i' && j == j'
  {
  }

  /** `headDuplicate`: scans pairs `i < j` by `i`, then `j`, and answers the
      later index of the first equal pair, or nothing (`undefined`) when all
      elements are distinct. An answer is never 0. */
  method HeadDuplicate(arr: seq<string>) returns (r: Option<nat>)
    ensures r.None? <==> NoDup(arr)
    ensures r.Some? ==> 1 <= r.value < |arr| && exists i :: FirstDuplicate(arr, i, r.value)
  {
    var i := 0;
    while i < |arr|
      invariant 0 <= i <= |arr|
      invariant forall i', j' :: 0 <= i' < i && i' < j' < |arr| ==> arr[i'] != arr[j']
    {
      var j := i + 1;
      while j < |arr|
        invariant i + 1 <= j <= |arr|
        invariant forall j' :: i < j' < j ==> arr[i] != arr[j']
      {
        if arr[j] == arr[i] {
          assert FirstDuplicate(arr, i, j);
          return Some(j);
        }
        j := j + 1;
      }
      i := i + 1;
    }
    return None;
  }

  /** JavaScript truthiness of `headDuplicate`'s answer: `undefined` and 0 are falsy. */
  predicate Truthy(r: Option<nat>)
  {
    r.Some? && r.value != 0
  }

  /** White space and line terminators as `String.prototype.trim` removes them. */
  predicate IsSpace(c: char)
  {
    || c == '\t' || c == '\n' || c == '\U{000B}' || c == '\U{000C}' || c == '\r' || c == ' '
    || c == '\U{00A0}' || c == '\U{1680}' || ('\U{2000}' <= c <= '\U{200A}')
    || c == '\U{2028}' || c == '\U{2029}' || c == '\U{202F}' || c == '\U{205F}'
    || c == '\U{3000}' || c == '\U{FEFF}'
  }

  predicate AllSpace(s: string)
  {
    forall k :: 0 <= k < |s| ==> IsSpace(s[k])
  }

  /** Drops leading white space: the answer is a suffix of `s`, what was dropped is all white space, and the answer does not start with white space. */
  function TrimStart(s: string): (r: string)
    ensures |r| <= |s| && r == s[|s| - |r|..]
    ensures AllSpace(s[..|s| - |r|])
    ensures |r| > 0 ==> !IsSpace(r[0])
  {
    if |s| > 0 && IsSpace(s[0]) then TrimStart(s[1..]) else s
  }

  /** Drops trailing white space: the answer is a prefix of `s`, what was dropped is all white space, and the answer does not end with white space. */
  function TrimEnd(s: string): (r: string)
    ensures |r| <= |s| && r == s[..|r|]
    ensures AllSpace(s[|r|..])
    ensures |r| > 0 ==> !IsSpace(r[|r| - 1])
  {
    if |s| > 0 && IsSpace(s[|s| - 1]) then TrimEnd(s[..|s| - 1]) else s
  }

  /** `t.trim()`: neither starts nor ends with white space (see `TrimFrame` for what it keeps). */
  function Trim(s: string): (r: string)
    ensures |r| <= |s|
    ensures |r| > 0 ==> !IsSpace(r[0]) && !IsSpace(r[|r| - 1])
  {
    var t := TrimStart(s);
    var r := TrimEnd(t);
    assert |r| > 0 ==> r[0] == t[0];
    r
  }

  /** Slicing a suffix is slicing the whole sequence further along. */
  lemma SliceOfSuffix(s: string, a: nat, k: nat)
    requires a + k <= |s|
    ensures s[a..][..k] == s[a..a + k]
    ensures s[a..][k..] == s[a + k..]
  {
  }

  /** `r` is the slice of `s` starting at `a`, and everything around it is white space. */
  predicate TrimmedAt(s: string, r: string, a: int)
  {
    0 <= a <= |s| - |r| && r == s[a..a + |r|] && AllSpace(s[..a]) && AllSpace(s[a + |r|..])
  }

  /** `Trim` keeps a slice of the input and cuts away only white space on either side. */
  lemma {:induction false} TrimFrame(s: string)
    ensures exists a :: TrimmedAt(s, Trim(s), a)
  {
    var t := TrimStart(s);
    var r := TrimEnd(t);
    var a := |s| - |t|;
    assert r == Trim(s);
    assert t == s[a..];
    SliceOfSuffix(s, a, |r|);
    assert r == s[a..a + |r|];
    assert t[|r|..] == s[a + |r|..];
    assert TrimmedAt(s, r, a);
  }

  /** Trimming twice is trimming once. */
  lemma TrimIdempotent(s: string)
    ensures Trim(Trim(s)) == Trim(s)
  {
  }

  function TrimAll(ss: seq<string>): (r: seq<string>)
    ensures |r| == |ss|
    ensures forall k :: 0 <= k < |ss| ==> r[k] == Trim(ss[k])
  {
    seq(|ss|, k requires 0 <= k < |ss| => Trim(ss[k]))
  }

  /** Which field, if any, the blur handler marks invalid. */
  datatype Flag = NoDuplicates | DuplicateText(at: nat) | DuplicateValue(at: nat)

  /** The blur handler either returns before touching the form, or clears every
      field's validity message and then sets at most one. */
  datatype Blur = Skipped | Validated(flag: Flag)

  /** `onBlur`: with fewer than two rows nothing is checked; otherwise the
      trimmed texts are checked first and, only when they are distinct, the
      trimmed values; the field flagged is the later one of the first
      duplicate pair. */
  method OnBlur(texts: seq<string>, values: seq<string>) returns (r: Blur)
    ensures r == Skipped <==> |texts| < 2
    ensures |texts| >= 2 && !NoDup(TrimAll(texts)) ==>
      r.Validated? && r.flag.DuplicateText? && exists i :: FirstDuplicate(TrimAll(texts), i, r.flag.at)
    ensures |texts| >= 2 && NoDup(TrimAll(texts)) && !NoDup(TrimAll(values)) ==>
      r.Validated? && r.flag.DuplicateValue? && exists i :: FirstDuplicate(TrimAll(values), i, r.flag.at)
    ensures |texts| >= 2 && NoDup(TrimAll(texts)) && NoDup(TrimAll(values)) ==>
      r == Validated(NoDuplicates)
  {
    var ts := TrimAll(texts);
    var vs := TrimAll(values);
    if |ts| < 2 {
      return Skipped;
    }
    var dupeText := HeadDuplicate(ts);
    if Truthy(dupeText) {
      return Validated(DuplicateText(dupeText.value));
    }
    var dupeValue := HeadDuplicate(vs);
    if Truthy(dupeValue) {
      return Validated(DuplicateValue(dupeValue.value));
    }
    return Validated(NoDuplicates);
  }

  /** The editor's own copy of the list's items. */
  datatype Editor = Editor(items: seq<Item>)

  /** The row `onClickAddItem` appends. */
  const Blank: Item := Item("", "", "")

  /** The constructor: a copy of the given items, or no rows when none are given. */
  function NewEditor(items: Option<seq<Item>>): (e: Editor)
    ensures items.Some? ==> e.items == items.value
    ensures items.None? ==> |e.items| == 0
  {
    match items
    case Some(its) => Editor(its)
    case None => Editor([])
  }

  /** `onClickAddItem`: one blank row more at the end, the others untouched. */
  function AddItem(e: Editor): (r: Editor)
    ensures |r.items| == |e.items| + 1
    ensures r.items[..|e.items|] == e.items
    ensures r.items[|e.items|] == Blank
  {
    Editor(e.items + [Blank])
  }

  /** `items.filter((s, i) => i !== idx)` */
  function Without(items: seq<Item>, idx: int): (r: seq<Item>)
    ensures 0 <= idx < |items| ==> r == items[..idx] + items[idx + 1..]
    ensures !(0 <= idx < |items|) ==> r == items
  {
    if |items| == 0 then []
    else
      var n := |items| - 1;
      var rest := Without(items[..n], idx);
      assert items == items[..n] + [items[n]];
      if n == idx then rest else rest + [items[n]]
  }

  /** `removeItem(idx)`: exactly row `idx` goes, the rest keep their order; an index that names no row changes nothing. */
  function RemoveItem(e: Editor, idx: int): (r: Editor)
    ensures !(0 <= idx < |e.items|) ==> r == e
    ensures 0 <= idx < |e.items| ==> |r.items| == |e.items| - 1
    ensures forall k :: 0 <= k < |r.items| && (k < idx || idx < 0) ==> r.items[k] == e.items[k]
    ensures 0 <= idx < |e.items| ==> forall k :: idx <= k < |r.items| ==> r.items[k] == e.items[k + 1]
  {
    Editor(Without(e.items, idx))
  }

  /** Removing the row just added gives back the editor as it was. */
  lemma AddThenRemove(e: Editor)
    ensures RemoveItem(AddItem(e), |e.items|) == e
  {
  }

  /** `splice(start, 1)` on an array, with JavaScript's reading of a negative start as counted from the end. */
  function SpliceOne<T>(s: seq<T>, start: int): (r: seq<T>)
    ensures 0 <= start < |s| ==> r == s[..start] + s[start + 1..]
    ensures start == -1 && |s| > 0 ==> r == s[..|s| - 1]
  {
    var from := if start < 0 then (if |s| + start < 0 then 0 else |s| + start) else (if start > |s| then |s| else start);
    if from < |s| then s[..from] + s[from + 1..] else s
  }

  /** The page with its reference to list `name` dropped, if it had one. */
  function Unlink(p: Page, name: string): (r: Page)
    ensures r.path == p.path && r.next == p.next && r.list != Some(name)
    ensures p.list == Some(name) ==> r.list == None
    ensures p.list != Some(name) ==> r == p
  {
    if p.list == Some(name) then p.(list := None) else p
  }

  /** `after` is `before`, page by page, with every reference to list `name`
      deleted (the field becomes absent) and nothing else changed. */
  predicate Unlinked(before: seq<Page>, after: seq<Page>, name: string)
  {
    && |after| == |before|
    && forall i :: 0 <= i < |before| ==>
      && after[i].list != Some(name)
      && (before[i].list == Some(name) ==> after[i].list == None)
      && after[i].path == before[i].path
      && after[i].next == before[i].next
      && (before[i].list != Some(name) ==> after[i] == before[i])
  }

  /** Every page loses its reference to list `name`; nothing else about any page changes. */
  function UnlinkAll(pages: seq<Page>, name: string): (r: seq<Page>)
    ensures Unlinked(pages, r, name)
  {
    seq(|pages|, i requires 0 <= i < |pages| => Unlink(pages[i], name))
  }

  /** `onClickDelete` on the list at position `at` of `data.lists` (`indexOf`
      answers by identity, so -1 means the list object is not in the array):
      unless the user cancels, the copy to save lacks that list and every page
      that referred to the list's name has no list any more; every other page, list, section
      and condition is as before. The original document is a value and is not
      touched. */
  function DeleteList(data: Doc, list: ListDef, at: int, confirmed: bool): (r: Option<Doc>)
    requires -1 <= at < |data.lists|
    requires at >= 0 ==> data.lists[at] == list
    ensures r.Some? <==> confirmed
    ensures r.Some? && at >= 0 ==> r.value.lists == data.lists[..at] + data.lists[at + 1..]
    ensures r.Some? && at == -1 && |data.lists| > 0 ==> r.value.lists == data.lists[..|data.lists| - 1]
    ensures r.Some? && at == -1 && |data.lists| == 0 ==> r.value.lists == []
    ensures r.Some? ==> Unlinked(data.pages, r.value.pages, list.name)
    ensures r.Some? ==> r.value.sections == data.sections && r.value.conditions == data.conditions
  {
    if !confirmed then None
    else
      Some(data.(lists := SpliceOne(data.lists, at), pages := UnlinkAll(data.pages, list.name)))
  }
}
