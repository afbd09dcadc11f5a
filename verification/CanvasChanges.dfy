/** What each entry of a canvas change list says, and that nothing goes unsaid. */
module CanvasChanges {
  import opened Wrappers
  import opened CanvasDiff

  // ---------------------------------------------------------------------------------------------
  // One item
  // ---------------------------------------------------------------------------------------------

  /** What an entry says of an item found at `i` before and at `j` after, with these fields differing: it went, it came, it lies
      elsewhere in the list, or exactly these fields of it changed. */
  ghost predicate Tells(c: Change, i: Option<nat>, j: Option<nat>, differing: set<string>) {
    match c.action
    case Deleted => i.Some? && j.None? && c.fields == []
    case Created => i.None? && j.Some? && c.fields == []
    case Moved => i.Some? && j.Some? && i != j && c.fields == ["index"]
    case Updated => i.Some? && j.Some? && differing != {} && (set f | f in c.fields) == differing
  }

  /** Every action that applies is among the entries, and none twice. */
  ghost predicate AllTold(changes: seq<Change>, i: Option<nat>, j: Option<nat>, differing: set<string>) {
    && (i.Some? && j.None? ==> exists c :: c in changes && c.action == Deleted)
    && (i.None? && j.Some? ==> exists c :: c in changes && c.action == Created)
    && (i.Some? && j.Some? && i != j ==> exists c :: c in changes && c.action == Moved)
    && (i.Some? && j.Some? && differing != {} ==> exists c :: c in changes && c.action == Updated)
    && (forall k, l :: 0 <= k < l < |changes| ==> changes[k].action != changes[l].action)
  }

  lemma ComparedTells(page: string, element: Option<string>, i: Option<nat>, j: Option<nat>, fields: seq<string>)
    requires i.Some? || j.Some?
    ensures var changes, differing := Compared(page, element, i, j, fields), set f | f in fields;
      && (forall c :: c in changes ==> c.page == page && c.element == element && Tells(c, i, j, differing))
      && AllTold(changes, i, j, differing)
  {
    var changes, differing := Compared(page, element, i, j, fields), set f | f in fields;
    NoneIsEmpty(fields);
    if i.None? || j.None? {
      assert changes[0] in changes;
    } else {
      if i != j {
        assert changes[|changes| - 1] in changes && changes[|changes| - 1].action == Moved;
      }
      if fields != [] {
        assert fields[0] in differing && changes[0] in changes && changes[0].action == Updated;
      }
    }
  }

  // ---------------------------------------------------------------------------------------------
  // Where items are found
  // ---------------------------------------------------------------------------------------------

  /** The first item with the id, if there is one. */
  ghost predicate FirstAt(list: seq<Identified>, id: string, i: Option<nat>) {
    if i.Some? then i.value < |list| && Id(list[i.value]) == id && forall k :: 0 <= k < i.value ==> Id(list[k]) != id
    else forall k :: 0 <= k < |list| ==> Id(list[k]) != id
  }

  /** The last item with the id, if there is one. */
  ghost predicate LastAt(list: seq<Identified>, id: string, i: Option<nat>) {
    if i.Some? then i.value < |list| && Id(list[i.value]) == id && forall k :: i.value < k < |list| ==> Id(list[k]) != id
    else forall k :: 0 <= k < |list| ==> Id(list[k]) != id
  }

  lemma {:induction false} FirstIsFirst(list: seq<Identified>, id: string)
    ensures FirstAt(list, id, FirstWith(list, id))
  {
    if list == [] || Id(list[0]) == id {
    } else {
      FirstIsFirst(list[1..], id);
      assert forall k :: 1 <= k < |list| ==> list[k] == list[1..][k - 1];
    }
  }

  lemma {:induction false} LastIsLast(list: seq<Identified>, id: string)
    ensures LastAt(list, id, LastWith(list, id))
  {
    if list == [] || Id(list[|list| - 1]) == id {
    } else {
      LastIsLast(list[..|list| - 1], id);
    }
  }

  /** The entries of a list of ids are those of each id. */
  lemma {:induction false} InConcat(diff: string -> seq<Change>, ids: seq<string>, c: Change)
    ensures c in Concat(diff, ids) <==> exists id :: id in ids && c in diff(id)
  {
    if ids == [] {
    } else {
      var n := |ids| - 1;
      InConcat(diff, ids[..n], c);
      assert ids == ids[..n] + [ids[n]];
    }
  }

  /** The fields two objects have between them that differ. */
  ghost function Differing(p: Option<Identified>, q: Option<Identified>): set<string> {
    if p.None? || q.None? then {} else set key | key in KeysOf(p.value.fields) + KeysOf(q.value.fields) && !EqualAt(p.value, q.value, key)
  }

  lemma FieldsDiffer(p: Option<Identified>, q: Option<Identified>)
    ensures (set f | f in FieldsBetween(p, q)) == Differing(p, q)
    ensures (set f | f in Except(FieldsBetween(p, q), "elements")) == Differing(p, q) - {"elements"}
  {
    ExceptKeeps(FieldsBetween(p, q), "elements");
    if p.Some? && q.Some? {
      var all := KeysOf(p.value.fields) + KeysOf(q.value.fields);
      UnequalAreUnequal(p.value, q.value, Distinct(all));
      DistinctKeeps(all);
    }
  }

  // ---------------------------------------------------------------------------------------------
  // Elements
  // ---------------------------------------------------------------------------------------------

  /** The entry tells what became of the last element with its id. */
  ghost predicate TellsElement(page: string, a: seq<Identified>, b: seq<Identified>, c: Change) {
    && c.page == page && c.element.Some?
    && exists i, j :: LastAt(a, c.element.value, i) && LastAt(b, c.element.value, j) && Tells(c, i, j, Differing(ItemAt(a, i), ItemAt(b, j)))
  }

  lemma OneElementTells(page: string, a: seq<Identified>, b: seq<Identified>, id: string)
    requires id in Ids(a) || id in Ids(b)
    ensures var i, j, changes := LastWith(a, id), LastWith(b, id), ElementDiff(page, a, b, id);
      && LastAt(a, id, i) && LastAt(b, id, j) && AllTold(changes, i, j, Differing(ItemAt(a, i), ItemAt(b, j)))
      && forall c: Change :: c in changes ==> c.element == Some(id) && TellsElement(page, a, b, c)
  {
    var i, j := LastWith(a, id), LastWith(b, id);
    LastIsLast(a, id);
    LastIsLast(b, id);
    LastIsThere(a, id);
    LastIsThere(b, id);
    FieldsDiffer(ItemAt(a, i), ItemAt(b, j));
    ComparedTells(page, Some(id), i, j, FieldsBetween(ItemAt(a, i), ItemAt(b, j)));
  }

  /** Every entry about elements is true, and of every id in either list everything is told. */
  lemma ElementChangesTell(page: string, a: seq<Identified>, b: seq<Identified>, id: string)
    ensures forall c :: c in ElementsDiff(page, a, b) ==> TellsElement(page, a, b, c)
    ensures id in Ids(a) || id in Ids(b) ==>
      exists i, j, changes :: LastAt(a, id, i) && LastAt(b, id, j) && AllTold(changes, i, j, Differing(ItemAt(a, i), ItemAt(b, j)))
        && forall c: Change :: c in changes ==> c.page == page && c.element == Some(id) && c in ElementsDiff(page, a, b)
  {
    forall c | c in ElementsDiff(page, a, b)
      ensures TellsElement(page, a, b, c)
    {
      InConcat(ElementDiffs(page, a, b), AllIds(a, b), c);
      var other :| other in AllIds(a, b) && c in ElementDiffs(page, a, b)(other);
      InAllIds(a, b, other);
      OneElementTells(page, a, b, other);
    }
    if id in Ids(a) || id in Ids(b) {
      OneElementTells(page, a, b, id);
      InAllIds(a, b, id);
      forall c | c in ElementDiff(page, a, b, id)
        ensures c in ElementsDiff(page, a, b)
      {
        assert c in ElementDiffs(page, a, b)(id);
        InConcat(ElementDiffs(page, a, b), AllIds(a, b), c);
      }
    }
  }

  // ---------------------------------------------------------------------------------------------
  // Pages
  // ---------------------------------------------------------------------------------------------

  /** The entry tells what became of the first page with its id, or of an element of it; the elements of a page that came or went did
      so too. */
  ghost predicate TellsPage(a: seq<Identified>, b: seq<Identified>, c: Change) {
    exists i, j :: FirstAt(a, c.page, i) && FirstAt(b, c.page, j) && TellsOfPage(a, b, c, i, j)
  }

  ghost predicate TellsOfPage(a: seq<Identified>, b: seq<Identified>, c: Change, i: Option<nat>, j: Option<nat>)
    requires (i.Some? ==> i.value < |a|) && (j.Some? ==> j.value < |b|)
  {
    var p, q := ItemAt(a, i), ItemAt(b, j);
    if c.element.None? then Tells(c, i, j, Differing(p, q) - {"elements"}) else TellsElement(c.page, ElementsOf(p), ElementsOf(q), c)
  }

  /** The entries about the page itself. */
  function OwnEntries(a: seq<Identified>, b: seq<Identified>, id: string): seq<Change> {
    var i, j := FirstWith(a, id), FirstWith(b, id);
    Compared(id, None, i, j, Except(FieldsBetween(ItemAt(a, i), ItemAt(b, j)), "elements"))
  }

  function ElementEntries(a: seq<Identified>, b: seq<Identified>, id: string): seq<Change> {
    var i, j := FirstWith(a, id), FirstWith(b, id);
    ElementsDiff(id, ElementsOf(ItemAt(a, i)), ElementsOf(ItemAt(b, j)))
  }

  lemma EntriesOfPage(a: seq<Identified>, b: seq<Identified>, id: string, c: Change)
    ensures c in PageDiff(a, b, id) <==> c in OwnEntries(a, b, id) || c in ElementEntries(a, b, id)
  {
  }

  lemma OwnEntriesTell(a: seq<Identified>, b: seq<Identified>, id: string)
    requires id in Ids(a) || id in Ids(b)
    ensures var i, j := FirstWith(a, id), FirstWith(b, id);
      && FirstAt(a, id, i) && FirstAt(b, id, j)
      && AllTold(OwnEntries(a, b, id), i, j, Differing(ItemAt(a, i), ItemAt(b, j)) - {"elements"})
      && forall c: Change :: c in OwnEntries(a, b, id) ==> c.page == id && c.element == None && TellsOfPage(a, b, c, i, j)
  {
    var i, j := FirstWith(a, id), FirstWith(b, id);
    FirstIsFirst(a, id);
    FirstIsFirst(b, id);
    FirstIsThere(a, id);
    FirstIsThere(b, id);
    FieldsDiffer(ItemAt(a, i), ItemAt(b, j));
    ComparedTells(id, None, i, j, Except(FieldsBetween(ItemAt(a, i), ItemAt(b, j)), "elements"));
  }

  lemma ElementEntriesTell(a: seq<Identified>, b: seq<Identified>, id: string, c: Change)
    requires c in ElementEntries(a, b, id)
    ensures c.page == id && TellsOfPage(a, b, c, FirstWith(a, id), FirstWith(b, id))
  {
    var i, j := FirstWith(a, id), FirstWith(b, id);
    ElementChangesTell(id, ElementsOf(ItemAt(a, i)), ElementsOf(ItemAt(b, j)), id);
  }

  lemma InDiff(before: Value, after: Value, c: Change)
    ensures var a, b := PagesOf(before), PagesOf(after);
      c in Diff(before, after) <==> exists id :: (id in Ids(a) || id in Ids(b)) && c in PageDiff(a, b, id)
  {
    var a, b := PagesOf(before), PagesOf(after);
    InConcat(PageDiffs(a, b), AllIds(a, b), c);
    forall id
      ensures id in AllIds(a, b) <==> id in Ids(a) || id in Ids(b)
    {
      InAllIds(a, b, id);
    }
    assert forall id :: PageDiffs(a, b)(id) == PageDiff(a, b, id);
  }

  /** Every entry of the list between two documents is true of the first pages with its page's id. */
  lemma EveryChangeTells(before: Value, after: Value, c: Change)
    requires c in Diff(before, after)
    ensures TellsPage(PagesOf(before), PagesOf(after), c)
  {
    var a, b := PagesOf(before), PagesOf(after);
    InDiff(before, after, c);
    var id :| (id in Ids(a) || id in Ids(b)) && c in PageDiff(a, b, id);
    EntriesOfPage(a, b, id, c);
    OwnEntriesTell(a, b, id);
    if c in ElementEntries(a, b, id) {
      ElementEntriesTell(a, b, id, c);
    }
  }

  lemma PageTold(before: Value, after: Value, id: string)
    requires id in Ids(PagesOf(before)) || id in Ids(PagesOf(after))
    ensures var a, b := PagesOf(before), PagesOf(after);
      FirstAt(a, id, FirstWith(a, id)) && FirstAt(b, id, FirstWith(b, id))
      && PageIsTold(a, b, id, FirstWith(a, id), FirstWith(b, id), Diff(before, after))
  {
    var a, b := PagesOf(before), PagesOf(after);
    OwnEntriesTell(a, b, id);
    forall c | c in OwnEntries(a, b, id)
      ensures c in Diff(before, after)
    {
      EntriesOfPage(a, b, id, c);
      InDiff(before, after, c);
    }
  }

  lemma ElementTold(before: Value, after: Value, id: string, element: string)
    requires id in Ids(PagesOf(before)) || id in Ids(PagesOf(after))
    ensures var a, b := PagesOf(before), PagesOf(after);
      var p, q := ItemAt(a, FirstWith(a, id)), ItemAt(b, FirstWith(b, id));
      ElementIsTold(id, ElementsOf(p), ElementsOf(q), element, Diff(before, after))
  {
    var a, b := PagesOf(before), PagesOf(after);
    ElementChangesTell(id, ElementsOf(ItemAt(a, FirstWith(a, id))), ElementsOf(ItemAt(b, FirstWith(b, id))), element);
    forall c | c in ElementEntries(a, b, id)
      ensures c in Diff(before, after)
    {
      EntriesOfPage(a, b, id, c);
      InDiff(before, after, c);
    }
  }

  /** And of every page and every element of either document everything is told. */
  lemma EveryDifferenceIsTold(before: Value, after: Value, id: string, element: string)
    requires id in Ids(PagesOf(before)) || id in Ids(PagesOf(after))
    ensures var a, b := PagesOf(before), PagesOf(after);
      exists i, j :: FirstAt(a, id, i) && FirstAt(b, id, j) && PageIsTold(a, b, id, i, j, Diff(before, after))
        && ElementIsTold(id, ElementsOf(ItemAt(a, i)), ElementsOf(ItemAt(b, j)), element, Diff(before, after))
  {
    PageTold(before, after, id);
    ElementTold(before, after, id, element);
  }

  ghost predicate PageIsTold(a: seq<Identified>, b: seq<Identified>, id: string, i: Option<nat>, j: Option<nat>, all: seq<Change>)
    requires (i.Some? ==> i.value < |a|) && (j.Some? ==> j.value < |b|)
  {
    exists own :: AllTold(own, i, j, Differing(ItemAt(a, i), ItemAt(b, j)) - {"elements"})
      && forall c: Change :: c in own ==> c.page == id && c.element == None && c in all
  }

  ghost predicate ElementIsTold(page: string, a: seq<Identified>, b: seq<Identified>, id: string, all: seq<Change>) {
    id in Ids(a) || id in Ids(b) ==>
      exists i, j, own :: LastAt(a, id, i) && LastAt(b, id, j) && AllTold(own, i, j, Differing(ItemAt(a, i), ItemAt(b, j)))
        && forall c: Change :: c in own ==> c.page == page && c.element == Some(id) && c in all
  }

  // ---------------------------------------------------------------------------------------------
  // What counts as a page and as an element
  // ---------------------------------------------------------------------------------------------

  /** `at` names the positions of the objects with a string for an id, all of them and in order. */
  ghost predicate PickedAt(items: seq<Value>, list: seq<Identified>, at: seq<nat>) {
    && |at| == |list| && (forall k :: 0 <= k < |at| ==> at[k] < |items| && list[k] == items[at[k]])
    && (forall j, k :: 0 <= j < k < |at| ==> at[j] < at[k])
    && (forall i :: 0 <= i < |items| && items[i].Obj? && Get(items[i], "id").Str? ==> i in at)
  }

  lemma PickOneMore(items: seq<Value>, list: seq<Identified>, at: seq<nat>, v: Value)
    requires PickedAt(items, list, at)
    ensures HasId(v) ==> PickedAt(items + [v], list + [v], at + [|items|])
    ensures !HasId(v) ==> PickedAt(items + [v], list, at)
  {
    var more := at + [|items|];
    assert forall i :: i in at ==> i in more;
    assert |items| in more;
  }

  lemma {:induction false} IdentifiedArePicked(items: seq<Value>) returns (at: seq<nat>)
    ensures PickedAt(items, IdentifiedOnes(items), at)
  {
    if items == [] {
      at := [];
    } else {
      var n := |items| - 1;
      at := IdentifiedArePicked(items[..n]);
      assert items == items[..n] + [items[n]];
      PickOneMore(items[..n], IdentifiedOnes(items[..n]), at, items[n]);
      at := if HasId(items[n]) then at + [n] else at;
    }
  }

  /** The pages of a document are the identified objects in its list of pages, and the elements of a page those in its list of elements;
      without such a list there are none. */
  lemma ListsAreRead(document: Value, page: Identified) returns (pages: seq<nat>, elements: seq<nat>)
    ensures document.Obj? && Get(document, "pages").Arr? ==> PickedAt(Get(document, "pages").items, PagesOf(document), pages)
    ensures !(document.Obj? && Get(document, "pages").Arr?) ==> PagesOf(document) == []
    ensures Get(page, "elements").Arr? ==> PickedAt(Get(page, "elements").items, ElementsOf(Some(page)), elements)
    ensures !Get(page, "elements").Arr? ==> ElementsOf(Some(page)) == []
    ensures ElementsOf(None) == []
  {
    pages, elements := [], [];
    if document.Obj? && Get(document, "pages").Arr? {
      pages := IdentifiedArePicked(Get(document, "pages").items);
    }
    if Get(page, "elements").Arr? {
      elements := IdentifiedArePicked(Get(page, "elements").items);
    }
  }
}
