/** The state changes between two parsed documents: every attribute that differs on a block both have. */
module AttrDiff {
  import opened Wrappers
  import Strings = Text

  datatype AttrValue = Text(s: string) | Number(n: real) | Flag(b: bool)

  type Attrs = map<string, AttrValue>

  datatype Node =
    | Document(children: seq<Node>)
    | Section(children: seq<Node>)
    | Directive(id: string, attrs: Attrs, children: seq<Node>)
    | List(items: seq<Node>)
    | Other

  /** An identified directive. */
  datatype Block = Block(id: string, attrs: Attrs)

  datatype StateChange = StateChange(block: string, attribute: string, from: AttrValue, to_: AttrValue, at: string, reason: Option<string>)

  datatype DiffError = AtRequired | DuplicateId(id: string)

  const ABSENT: AttrValue := Text("(absent)")

  // ---------------------------------------------------------------------------------------------
  // Blocks of a document
  // ---------------------------------------------------------------------------------------------

  /** The node and everything below it, in document order. */
  function Walk(node: Node): seq<Node> {
    match node
    case Document(children) => [node] + WalkAll(children)
    case Section(children) => [node] + WalkAll(children)
    case Directive(_, _, children) => [node] + WalkAll(children)
    case List(items) => [node] + WalkAll(items)
    case Other => [node]
  }

  function WalkAll(nodes: seq<Node>): seq<Node> {
    if nodes == [] then [] else Walk(nodes[0]) + WalkAll(nodes[1..])
  }

  function Find(index: seq<Block>, id: string): Option<Attrs> {
    if index == [] then None
    else if index[|index| - 1].id == id then Some(index[|index| - 1].attrs)
    else Find(index[..|index| - 1], id)
  }

  predicate Identified(node: Node) {
    node.Directive? && node.id != ""
  }

  /** The identified directives in order, up to the first repeated id. */
  function Indexed(nodes: seq<Node>): Result<seq<Block>, DiffError> {
    if nodes == [] then Success([])
    else
      var before, node := Indexed(nodes[..|nodes| - 1]), nodes[|nodes| - 1];
      if before.Failure? || !Identified(node) then before
      else if Find(before.value, node.id).Some? then Failure(DuplicateId(node.id))
      else Success(before.value + [Block(node.id, node.attrs)])
  }

  method IndexById(doc: Node) returns (r: Result<seq<Block>, DiffError>)
    ensures r == Indexed(Walk(doc))
  {
    var nodes := Walk(doc);
    var index: seq<Block> := [];
    for i := 0 to |nodes|
      invariant Indexed(nodes[..i]) == Success(index)
    {
      assert nodes[..i + 1][..i] == nodes[..i];
      var node := nodes[i];
      if !Identified(node) {
        continue;
      }
      if Find(index, node.id).Some? {
        FailureStays(nodes, i + 1);
        return Failure(DuplicateId(node.id));
      }
      index := index + [Block(node.id, node.attrs)];
    }
    assert nodes[..|nodes|] == nodes;
    r := Success(index);
  }

  lemma {:induction false} FailureStays(nodes: seq<Node>, i: nat)
    requires i <= |nodes| && Indexed(nodes[..i]).Failure?
    ensures Indexed(nodes) == Indexed(nodes[..i])
    decreases |nodes|
  {
    if i < |nodes| {
      assert nodes[..|nodes| - 1][..i] == nodes[..i];
      FailureStays(nodes[..|nodes| - 1], i);
    } else {
      assert nodes[..i] == nodes;
    }
  }

  // ---------------------------------------------------------------------------------------------
  // Differences
  // ---------------------------------------------------------------------------------------------

  function Lookup(attrs: Attrs, key: string): Option<AttrValue> {
    if key in attrs then Some(attrs[key]) else None
  }

  /** How a change writes a value, or that there is none. */
  function Shown(v: Option<AttrValue>): AttrValue {
    if v.Some? then v.value else ABSENT
  }

  ghost predicate IsLeast(keys: set<string>, key: string) {
    key in keys && forall k :: k in keys ==> Strings.AtMost(key, k)
  }

  lemma {:induction false} LeastKey(keys: set<string>) returns (least: string)
    requires keys != {}
    ensures IsLeast(keys, least)
    decreases |keys|
  {
    var x :| x in keys;
    var rest := keys - {x};
    least := x;
    Strings.AtMostIsTotal(x, x);
    if rest != {} {
      var y := LeastKey(rest);
      Strings.AtMostIsTotal(x, y);
      if Strings.AtMost(y, x) {
        least := y;
      }
      forall k | k in keys
        ensures Strings.AtMost(least, k)
      {
        if k != x && least == x {
          Strings.AtMostIsTransitive(x, y, k);
        }
      }
    } else {
      assert forall k :: k in keys ==> k == x || k in rest;
    }
  }

  ghost predicate Sorted(s: seq<string>) {
    forall i, j :: 0 <= i < j < |s| ==> Strings.AtMost(s[i], s[j]) && s[i] != s[j]
  }

  /** The keys in string order. */
  method SortKeys(keys: set<string>) returns (s: seq<string>)
    ensures Sorted(s) && forall k :: k in s <==> k in keys
  {
    s := [];
    var rest := keys;
    while rest != {}
      invariant rest <= keys && Sorted(s)
      invariant forall k :: k in keys <==> k in rest || k in s
      invariant forall i, k :: 0 <= i < |s| && k in rest ==> Strings.AtMost(s[i], k) && s[i] != k
      decreases |rest|
    {
      ghost var _ := LeastKey(rest);
      var k :| k in rest && forall m :: m in rest ==> Strings.AtMost(k, m);
      s := s + [k];
      rest := rest - {k};
    }
  }

  /** A change is emitted for a shared block's attribute other than `id` that differs. */
  predicate IsDelta(a: Attrs, b: Attrs, c: StateChange) {
    && c.attribute != "id" && Lookup(a, c.attribute) != Lookup(b, c.attribute)
    && c.from == Shown(Lookup(a, c.attribute)) && c.to_ == Shown(Lookup(b, c.attribute))
  }

  predicate IsChange(before: seq<Block>, after: seq<Block>, at: string, reason: Option<string>, c: StateChange) {
    && Find(before, c.block).Some? && Find(after, c.block).Some?
    && IsDelta(Find(before, c.block).value, Find(after, c.block).value, c) && c.at == at && c.reason == reason
  }

  /** Exactly the changes between the two, each once. */
  ghost predicate AreChanges(before: seq<Block>, after: seq<Block>, at: string, reason: Option<string>, cs: seq<StateChange>) {
    && (forall c :: c in cs <==> IsChange(before, after, at, reason, c))
    && (forall i, j :: 0 <= i < j < |cs| ==> cs[i].block != cs[j].block || cs[i].attribute != cs[j].attribute)
  }

  method DiffAttrs(block: string, a: Attrs, b: Attrs, at: string, reason: Option<string>) returns (out: seq<StateChange>)
    ensures forall c :: c in out <==> c.block == block && IsDelta(a, b, c) && c.at == at && c.reason == reason
    ensures forall i, j :: 0 <= i < j < |out| ==> Strings.AtMost(out[i].attribute, out[j].attribute) && out[i].attribute != out[j].attribute
  {
    var keys := SortKeys(a.Keys + b.Keys - {"id"});
    out := [];
    for n := 0 to |keys|
      invariant forall c :: c in out <==> c.attribute in keys[..n] && c.block == block && IsDelta(a, b, c) && c.at == at && c.reason == reason
      invariant forall i :: 0 <= i < |out| ==> exists k :: 0 <= k < n && keys[k] == out[i].attribute
      invariant forall i, j :: 0 <= i < j < |out| ==> Strings.AtMost(out[i].attribute, out[j].attribute) && out[i].attribute != out[j].attribute
    {
      var k := keys[n];
      assert keys[..n + 1] == keys[..n] + [k];
      assert k in keys;
      var change := StateChange(block, k, Shown(Lookup(a, k)), Shown(Lookup(b, k)), at, reason);
      if k !in a && k !in b {
        continue;
      }
      if k in a && k in b && a[k] == b[k] {
        continue;
      }
      out := out + [change];
    }
    assert keys[..|keys|] == keys;
  }

  method DiffDocs(before: Node, after: Node, at: string, reason: Option<string>) returns (r: Result<seq<StateChange>, DiffError>)
    ensures at == "" ==> r == Failure(AtRequired)
    ensures at != "" && Indexed(Walk(before)).Failure? ==> r == Failure(Indexed(Walk(before)).error)
    ensures at != "" && Indexed(Walk(before)).Success? && Indexed(Walk(after)).Failure? ==> r == Failure(Indexed(Walk(after)).error)
    ensures at != "" && Indexed(Walk(before)).Success? && Indexed(Walk(after)).Success? ==>
      r.Success? && AreChanges(Indexed(Walk(before)).value, Indexed(Walk(after)).value, at, reason, r.value)
  {
    if |at| == 0 {
      return Failure(AtRequired);
    }
    var beforeIndex := IndexById(before);
    if beforeIndex.Failure? {
      return Failure(beforeIndex.error);
    }
    var afterIndex := IndexById(after);
    if afterIndex.Failure? {
      return Failure(afterIndex.error);
    }
    var a, b := beforeIndex.value, afterIndex.value;
    var deltas: seq<StateChange> := [];
    for i := 0 to |b|
      invariant AreChanges(a, b[..i], at, reason, deltas)
    {
      var block := b[i];
      IndexedIsDistinct(Walk(after));
      var old_ := Find(a, block.id);
      if old_.None? {
        NoCounterpart(a, b, i, at, reason, deltas);
        continue;
      }
      var more := DiffAttrs(block.id, old_.value, block.attrs, at, reason);
      OneMoreBlock(a, b, i, at, reason, deltas, more);
      deltas := deltas + more;
    }
    assert b[..|b|] == b;
    r := Success(deltas);
  }

  ghost predicate DistinctIds(index: seq<Block>) {
    forall i, j :: 0 <= i < j < |index| ==> index[i].id != index[j].id
  }

  lemma NoCounterpart(a: seq<Block>, b: seq<Block>, i: nat, at: string, reason: Option<string>, deltas: seq<StateChange>)
    requires i < |b| && DistinctIds(b) && AreChanges(a, b[..i], at, reason, deltas) && Find(a, b[i].id).None?
    ensures AreChanges(a, b[..i + 1], at, reason, deltas)
  {
    FindOneMore(b, i);
    forall c
      ensures IsChange(a, b[..i + 1], at, reason, c) <==> IsChange(a, b[..i], at, reason, c)
    {
    }
  }

  /** What the blocks up to number `i` change, given what its predecessors and it change. */
  lemma OneMoreBlock(a: seq<Block>, b: seq<Block>, i: nat, at: string, reason: Option<string>, deltas: seq<StateChange>, more: seq<StateChange>)
    requires i < |b| && DistinctIds(b) && AreChanges(a, b[..i], at, reason, deltas) && Find(a, b[i].id).Some?
    requires forall c :: c in more <==>
      c.block == b[i].id && IsDelta(Find(a, b[i].id).value, b[i].attrs, c) && c.at == at && c.reason == reason
    requires forall j, k :: 0 <= j < k < |more| ==> more[j].attribute != more[k].attribute
    ensures AreChanges(a, b[..i + 1], at, reason, deltas + more)
  {
    FindOneMore(b, i);
    forall c
      ensures c in deltas + more <==> IsChange(a, b[..i + 1], at, reason, c)
    {
      if c.block == b[i].id {
        assert !IsChange(a, b[..i], at, reason, c);
      }
    }
    assert forall k :: 0 <= k < |deltas| ==> deltas[k] in deltas;
    assert forall k :: 0 <= k < |more| ==> more[k] in more && more[k].block == b[i].id;
    forall c | c in deltas
      ensures c.block != b[i].id
    {
      assert IsChange(a, b[..i], at, reason, c);
    }
  }

  lemma {:induction false} NotFound(index: seq<Block>, id: string)
    ensures Find(index, id).None? <==> forall i :: 0 <= i < |index| ==> index[i].id != id
  {
    if index == [] {
    } else {
      NotFound(index[..|index| - 1], id);
    }
  }

  lemma DistinctWithOneMore(index: seq<Block>, block: Block)
    requires DistinctIds(index) && Find(index, block.id).None?
    ensures DistinctIds(index + [block])
  {
    NotFound(index, block.id);
  }

  lemma {:induction false} IndexedIsDistinct(nodes: seq<Node>)
    ensures Indexed(nodes).Success? ==> DistinctIds(Indexed(nodes).value)
  {
    if nodes == [] {
    } else {
      IndexedIsDistinct(nodes[..|nodes| - 1]);
      var before, node := Indexed(nodes[..|nodes| - 1]), nodes[|nodes| - 1];
      if before.Success? && Identified(node) && Find(before.value, node.id).None? {
        DistinctWithOneMore(before.value, Block(node.id, node.attrs));
      }
    }
  }

  lemma FindOneMore(index: seq<Block>, i: nat)
    requires i < |index| && DistinctIds(index)
    ensures Find(index[..i], index[i].id) == None
    ensures forall id :: Find(index[..i + 1], id) == if id == index[i].id then Some(index[i].attrs) else Find(index[..i], id)
  {
    assert index[..i + 1][..i] == index[..i];
    NotFound(index[..i], index[i].id);
  }

  // ---------------------------------------------------------------------------------------------
  // Round trip
  // ---------------------------------------------------------------------------------------------

  /** The block's attributes after carrying out the changes: an absent target removes the attribute. */
  function Apply(attrs: Attrs, id: string, cs: seq<StateChange>): Attrs {
    if cs == [] then attrs
    else
      var before, c := Apply(attrs, id, cs[..|cs| - 1]), cs[|cs| - 1];
      if c.block != id then before
      else if c.to_ == ABSENT then before - {c.attribute}
      else before[c.attribute := c.to_]
  }

  predicate Concerns(c: StateChange, id: string, key: string) {
    c.block == id && c.attribute == key
  }

  /** What a change leaves behind. */
  function Target(c: StateChange): Option<AttrValue> {
    if c.to_ == ABSENT then None else Some(c.to_)
  }

  lemma {:induction false} ApplyLeaves(attrs: Attrs, id: string, cs: seq<StateChange>, key: string)
    requires forall c :: c in cs ==> !Concerns(c, id, key)
    ensures Lookup(Apply(attrs, id, cs), key) == Lookup(attrs, key)
  {
    if cs == [] {
    } else {
      assert cs[|cs| - 1] in cs;
      ApplyLeaves(attrs, id, cs[..|cs| - 1], key);
    }
  }

  lemma {:induction false} ApplySets(attrs: Attrs, id: string, cs: seq<StateChange>, key: string, c: StateChange)
    requires c in cs && Concerns(c, id, key) && forall x :: x in cs && Concerns(x, id, key) ==> x == c
    ensures Lookup(Apply(attrs, id, cs), key) == Target(c)
  {
    var n := |cs| - 1;
    assert cs == cs[..n] + [cs[n]];
    if !Concerns(cs[n], id, key) {
      ApplySets(attrs, id, cs[..n], key, c);
    }
  }

  ghost predicate Shared(before: seq<Block>, after: seq<Block>, id: string) {
    Find(before, id).Some? && Find(after, id).Some?
  }

  ghost predicate Restored(before: seq<Block>, after: seq<Block>, cs: seq<StateChange>, id: string, key: string)
    requires Shared(before, after, id)
  {
    Lookup(Apply(Find(before, id).value, id, cs), key) == Lookup(Find(after, id).value, key)
  }

  /** A new value that is literally `(absent)` where the old one is not. */
  ghost predicate Ambiguous(before: seq<Block>, after: seq<Block>, id: string, key: string) {
    Shared(before, after, id) && Lookup(Find(after, id).value, key) == Some(ABSENT) && Lookup(Find(before, id).value, key) != Some(ABSENT)
  }

  lemma OneAttribute(before: seq<Block>, after: seq<Block>, at: string, reason: Option<string>, cs: seq<StateChange>, id: string, key: string)
    requires AreChanges(before, after, at, reason, cs) && Shared(before, after, id) && key != "id"
    ensures Restored(before, after, cs, id, key) <==> !Ambiguous(before, after, id, key)
  {
    var a, b := Lookup(Find(before, id).value, key), Lookup(Find(after, id).value, key);
    if a == b {
      ApplyLeaves(Find(before, id).value, id, cs, key);
    } else {
      var c := StateChange(id, key, Shown(a), Shown(b), at, reason);
      assert c in cs;
      ApplySets(Find(before, id).value, id, cs, key, c);
    }
  }

  ghost predicate AllRestored(before: seq<Block>, after: seq<Block>, cs: seq<StateChange>) {
    forall id, key {:trigger Restored(before, after, cs, id, key)} :: Shared(before, after, id) && key != "id" ==> Restored(before, after, cs, id, key)
  }

  ghost predicate NoneAmbiguous(before: seq<Block>, after: seq<Block>) {
    forall id, key :: key != "id" ==> !Ambiguous(before, after, id, key)
  }

  /** Carrying out the changes on the old blocks gives every shared block its new attributes, other than the id, exactly when
      no new value is literally `(absent)` where the old one is not. */
  lemma ApplyingRestoresAttributes(before: seq<Block>, after: seq<Block>, at: string, reason: Option<string>, cs: seq<StateChange>)
    requires AreChanges(before, after, at, reason, cs)
    ensures AllRestored(before, after, cs) <==> NoneAmbiguous(before, after)
  {
    forall id, key | Shared(before, after, id) && key != "id"
      ensures Restored(before, after, cs, id, key) <==> !Ambiguous(before, after, id, key)
    {
      OneAttribute(before, after, at, reason, cs, id, key);
    }
    if AllRestored(before, after, cs) {
      forall id, key | key != "id"
        ensures !Ambiguous(before, after, id, key)
      {
        if Shared(before, after, id) {
          assert Restored(before, after, cs, id, key);
        }
      }
    }
  }

  const PLAIN_BLOCK := Block("a", map[])

  const ABSENT_BLOCK := Block("a", map["state" := ABSENT])

  /** A block that gains an attribute whose value is literally `(absent)`: the one change emitted does not restore it. */
  lemma AbsentValueWitness(at: string, reason: Option<string>)
    ensures var cs := [StateChange("a", "state", ABSENT, ABSENT, at, reason)];
      AreChanges([PLAIN_BLOCK], [ABSENT_BLOCK], at, reason, cs) && !Restored([PLAIN_BLOCK], [ABSENT_BLOCK], cs, "a", "state")
  {
    var change := StateChange("a", "state", ABSENT, ABSENT, at, reason);
    var a, b := [PLAIN_BLOCK], [ABSENT_BLOCK];
    assert forall id :: Find(a, id) == if id == "a" then Some(map[]) else None;
    assert forall id :: Find(b, id) == if id == "a" then Some(map["state" := ABSENT]) else None;
    assert "state" != "id" by {
      assert "state"[0] == 's';
    }
    forall c
      ensures c in [change] <==> IsChange(a, b, at, reason, c)
    {
    }
    assert Ambiguous(a, b, "a", "state");
    OneAttribute(a, b, at, reason, [change], "a", "state");
  }

  /** Blocks of only one document, and ids, are never touched. */
  lemma OnlySharedBlocksChange(before: seq<Block>, after: seq<Block>, at: string, reason: Option<string>, cs: seq<StateChange>,
                               id: string, attrs: Attrs, key: string)
    requires AreChanges(before, after, at, reason, cs) && (!Shared(before, after, id) || key == "id")
    ensures Lookup(Apply(attrs, id, cs), key) == Lookup(attrs, key)
  {
    ApplyLeaves(attrs, id, cs, key);
  }

  function Swapped(c: StateChange): StateChange {
    c.(from := c.to_, to_ := c.from)
  }

  /** Diffing the other way gives the same changes with both values swapped. */
  lemma ReverseDiffSwaps(before: seq<Block>, after: seq<Block>, at: string, reason: Option<string>, there: seq<StateChange>,
                         back: seq<StateChange>)
    requires AreChanges(before, after, at, reason, there) && AreChanges(after, before, at, reason, back)
    ensures |there| == |back| && forall c :: c in there <==> Swapped(c) in back
  {
    forall c
      ensures c in there <==> Swapped(c) in back
    {
      assert IsChange(before, after, at, reason, c) <==> IsChange(after, before, at, reason, Swapped(c));
    }
    SameLength(there, back);
  }

  lemma SameLength(there: seq<StateChange>, back: seq<StateChange>)
    requires forall i, j :: 0 <= i < j < |there| ==> there[i].block != there[j].block || there[i].attribute != there[j].attribute
    requires forall i, j :: 0 <= i < j < |back| ==> back[i].block != back[j].block || back[i].attribute != back[j].attribute
    requires forall c :: c in there <==> Swapped(c) in back
    ensures |there| == |back|
  {
    var s, r := set i | 0 <= i < |there| :: there[i], set i | 0 <= i < |back| :: Swapped(back[i]);
    Distinct(there);
    DistinctSwapped(back);
    forall c
      ensures c in s <==> c in r
    {
      assert c in s <==> c in there;
      if Swapped(c) in back {
        var i :| 0 <= i < |back| && back[i] == Swapped(c);
        assert Swapped(back[i]) == c;
      }
    }
    assert s == r;
  }

  lemma {:induction false} Distinct(cs: seq<StateChange>)
    requires forall i, j :: 0 <= i < j < |cs| ==> cs[i].block != cs[j].block || cs[i].attribute != cs[j].attribute
    ensures |set i | 0 <= i < |cs| :: cs[i]| == |cs|
  {
    if cs == [] {
    } else {
      var n := |cs| - 1;
      Distinct(cs[..n]);
      assert (set i | 0 <= i < |cs| :: cs[i]) == (set i | 0 <= i < n :: cs[..n][i]) + {cs[n]};
    }
  }

  lemma {:induction false} DistinctSwapped(cs: seq<StateChange>)
    requires forall i, j :: 0 <= i < j < |cs| ==> cs[i].block != cs[j].block || cs[i].attribute != cs[j].attribute
    ensures |set i | 0 <= i < |cs| :: Swapped(cs[i])| == |cs|
  {
    if cs == [] {
    } else {
      var n := |cs| - 1;
      DistinctSwapped(cs[..n]);
      assert (set i | 0 <= i < |cs| :: Swapped(cs[i])) == (set i | 0 <= i < n :: Swapped(cs[..n][i])) + {Swapped(cs[n])};
    }
  }

  // ---------------------------------------------------------------------------------------------
  // Repeated ids
  // ---------------------------------------------------------------------------------------------

  ghost predicate Repeats(nodes: seq<Node>) {
    exists i, j :: 0 <= i < j < |nodes| && SameId(nodes[i], nodes[j])
  }

  predicate SameId(m: Node, n: Node) {
    Identified(m) && Identified(n) && m.id == n.id
  }

  lemma {:induction false} IndexHoldsIdentified(nodes: seq<Node>, id: string)
    requires Indexed(nodes).Success?
    ensures Find(Indexed(nodes).value, id).Some? <==> HasId(nodes, id)
  {
    if nodes == [] {
    } else {
      var n := |nodes| - 1;
      var before := nodes[..n];
      IndexHoldsIdentified(before, id);
      OneMoreNode(before, nodes[n], id);
      assert before + [nodes[n]] == nodes;
      if Identified(nodes[n]) {
        var index := Indexed(before).value;
        assert (index + [Block(nodes[n].id, nodes[n].attrs)])[..|index|] == index;
      }
    }
  }

  ghost predicate HasId(nodes: seq<Node>, id: string) {
    exists i :: 0 <= i < |nodes| && Identified(nodes[i]) && nodes[i].id == id
  }

  lemma OneMoreNode(nodes: seq<Node>, node: Node, id: string)
    ensures HasId(nodes + [node], id) <==> HasId(nodes, id) || (Identified(node) && node.id == id)
  {
    var all := nodes + [node];
    assert forall i :: 0 <= i < |nodes| ==> all[i] == nodes[i];
    assert all[|nodes|] == node;
  }

  ghost predicate RepeatsLast(nodes: seq<Node>)
    requires nodes != []
  {
    exists i :: 0 <= i < |nodes| - 1 && SameId(nodes[i], nodes[|nodes| - 1])
  }

  /** The diff refuses a document exactly when two of its identified directives share an id. */
  lemma {:induction false} IndexingFailsExactlyOnRepeats(nodes: seq<Node>)
    ensures Indexed(nodes).Failure? <==> Repeats(nodes)
  {
    if nodes == [] {
    } else {
      var n := |nodes| - 1;
      var before := nodes[..n];
      IndexingFailsExactlyOnRepeats(before);
      if Indexed(before).Success? && Identified(nodes[n]) {
        IndexHoldsIdentified(before, nodes[n].id);
        LastIsRepeated(nodes);
      }
    }
  }

  lemma LastIsRepeated(nodes: seq<Node>)
    requires nodes != [] && Identified(nodes[|nodes| - 1])
    ensures var before, id := nodes[..|nodes| - 1], nodes[|nodes| - 1].id;
      RepeatsLast(nodes) <==> exists i :: 0 <= i < |before| && Identified(before[i]) && before[i].id == id
  {
    var n := |nodes| - 1;
    var before := nodes[..n];
    if RepeatsLast(nodes) {
      var i :| 0 <= i < n && SameId(nodes[i], nodes[n]);
      assert Identified(before[i]) && before[i].id == nodes[n].id;
    }
    if i :| 0 <= i < |before| && Identified(before[i]) && before[i].id == nodes[n].id {
      assert SameId(nodes[i], nodes[n]);
    }
  }
}
