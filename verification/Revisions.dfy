/** The document table with its hash check, and the revision table it feeds. */
module Revisions {
  import opened Wrappers

  type Id = string

  datatype Head = Head(title: string, source: string, hash: string)

  datatype Revision = Revision(number: nat, title: string, source: string, hash: string)

  datatype Store = Store(heads: map<Id, Head>, revisions: map<Id, seq<Revision>>)

  function Rows(s: Store, id: Id): seq<Revision> {
    if id in s.revisions then s.revisions[id] else []
  }

  /** COALESCE(MAX(revision), 0) */
  function MaxNumber(rows: seq<Revision>): nat {
    if rows == [] then 0
    else
      var before := MaxNumber(rows[..|rows| - 1]);
      if rows[|rows| - 1].number > before then rows[|rows| - 1].number else before
  }

  /** What an accepted write leaves behind; `None` when the hash check refuses it. */
  function Written(s: Store, id: Id, next: Head, expected: Option<string>): Option<Store> {
    var previous := if id in s.heads then Some(s.heads[id]) else None;
    if expected.Some? && (previous.None? || previous.value.hash != expected.value) then None
    else
      var heads := s.heads[id := next];
      if previous.None? || previous.value.hash != next.hash || previous.value.title != next.title then
        Some(Store(heads, s.revisions[id := Rows(s, id) + [Revision(MaxNumber(Rows(s, id)) + 1, next.title, next.source, next.hash)]]))
      else
        Some(Store(heads, s.revisions))
  }

  class DocumentTable {
    var store: Store

    constructor ()
      ensures store == Store(map[], map[])
    {
      store := Store(map[], map[]);
    }

    method WriteDocument(id: Id, next: Head, expected: Option<string>) returns (accepted: bool)
      modifies this
      ensures accepted <==> Written(old(store), id, next, expected).Some?
      ensures store == if accepted then Written(old(store), id, next, expected).value else old(store)
    {
      var previous := if id in store.heads then Some(store.heads[id]) else None;
      if expected.Some? && !(previous.Some? && previous.value.hash == expected.value) {
        return false;
      }
      var rows := Rows(store, id);
      store := store.(heads := store.heads[id := next]);
      if previous.None? || previous.value.hash != next.hash || previous.value.title != next.title {
        var nextRevision := MaxNumber(rows) + 1;
        store := store.(revisions := store.revisions[id := rows + [Revision(nextRevision, next.title, next.source, next.hash)]]);
      }
      return true;
    }
  }

  // ---------------------------------------------------------------------------------------------
  // The history invariant
  // ---------------------------------------------------------------------------------------------

  /** Revisions are numbered 1, 2, … in the order they were written. */
  ghost predicate Numbered(rows: seq<Revision>) {
    forall i :: 0 <= i < |rows| ==> rows[i].number == i + 1
  }

  ghost predicate EndsWithHead(rows: seq<Revision>, head: Head) {
    rows != [] && var last := rows[|rows| - 1]; last.title == head.title && last.source == head.source && last.hash == head.hash
  }

  ghost predicate Injective(sha: string -> string) {
    forall a, b :: sha(a) == sha(b) ==> a == b
  }

  /** Every head carries its own hash and is the last of its consecutively numbered revisions. */
  ghost predicate Sound(s: Store, sha: string -> string) {
    && (forall id :: id in s.heads ==> s.heads[id].hash == sha(s.heads[id].source))
    && (forall id :: id in s.heads ==> Numbered(Rows(s, id)) && EndsWithHead(Rows(s, id), s.heads[id]))
    && (forall id :: id !in s.heads ==> Rows(s, id) == [])
  }

  lemma {:induction false} MaxOfNumbered(rows: seq<Revision>)
    requires Numbered(rows)
    ensures MaxNumber(rows) == |rows|
  {
    if rows == [] {
    } else {
      MaxOfNumbered(rows[..|rows| - 1]);
    }
  }

  /** Every write keeps the history sound, whoever made it and whatever it expected. */
  lemma WriteKeepsSound(s: Store, id: Id, next: Head, expected: Option<string>, sha: string -> string)
    requires Sound(s, sha) && Injective(sha) && next.hash == sha(next.source) && Written(s, id, next, expected).Some?
    ensures Sound(Written(s, id, next, expected).value, sha)
  {
    var s' := Written(s, id, next, expected).value;
    MaxOfNumbered(Rows(s, id));
    forall other | other in s'.heads
      ensures Numbered(Rows(s', other)) && EndsWithHead(Rows(s', other), s'.heads[other])
    {
      if other != id {
        assert Rows(s', other) == Rows(s, other);
      }
    }
  }

  /** A write that names a source by its hash is accepted exactly when that source is the head's; it only appends to the history, and the
      replaced source stays in it. */
  lemma WriteReplacesOnlyTheExpected(s: Store, id: Id, next: Head, expected: string, sha: string -> string)
    requires Sound(s, sha)
    ensures Written(s, id, next, Some(expected)).Some? <==> id in s.heads && s.heads[id].hash == expected
    ensures Injective(sha) ==>
      forall base :: sha(base) == expected ==> (Written(s, id, next, Some(expected)).Some? <==> id in s.heads && s.heads[id].source == base)
    ensures Written(s, id, next, Some(expected)).Some? ==>
      var s' := Written(s, id, next, Some(expected)).value;
      && (forall other :: Rows(s, other) <= Rows(s', other))
      && exists i :: 0 <= i < |Rows(s', id)| && Rows(s', id)[i].source == s.heads[id].source
  {
    if Written(s, id, next, Some(expected)).Some? {
      var s' := Written(s, id, next, Some(expected)).value;
      var last := |Rows(s, id)| - 1;
      assert EndsWithHead(Rows(s, id), s.heads[id]);
      assert Rows(s', id)[last] == Rows(s, id)[last];
    }
  }

  lemma {:induction false} MaxIsGreatest(rows: seq<Revision>)
    ensures forall i :: 0 <= i < |rows| ==> rows[i].number <= MaxNumber(rows)
  {
    if rows == [] {
    } else {
      MaxIsGreatest(rows[..|rows| - 1]);
    }
  }

  /** In every state of the tables: a write is refused exactly when it names a hash the head does not have. An accepted one is the head
      afterwards, leaves every other page alone, and adds itself to the history under a number above all others, unless it says what the
      head said already. */
  lemma AcceptedWriteIsStored(s: Store, id: Id, next: Head, expected: Option<string>)
    ensures Written(s, id, next, expected).None? <==> expected.Some? && (id !in s.heads || s.heads[id].hash != expected.value)
    ensures Written(s, id, next, expected).Some? ==>
      var after := Written(s, id, next, expected).value;
      && after.heads.Keys == s.heads.Keys + {id} && after.heads[id] == next
      && (forall o :: o in s.heads && o != id ==> after.heads[o] == s.heads[o]) && (forall o :: o != id ==> Rows(after, o) == Rows(s, o))
      && if id in s.heads && s.heads[id].hash == next.hash && s.heads[id].title == next.title then Rows(after, id) == Rows(s, id)
         else exists row :: Rows(after, id) == Rows(s, id) + [row] && row.source == next.source && row.title == next.title
                && row.hash == next.hash && forall earlier :: earlier in Rows(s, id) ==> earlier.number < row.number
  {
    MaxIsGreatest(Rows(s, id));
    if Written(s, id, next, expected).Some? {
      var row := Revision(MaxNumber(Rows(s, id)) + 1, next.title, next.source, next.hash);
      assert row.source == next.source && row.title == next.title && row.hash == next.hash;
    }
  }
}
