/** Chat retention: one descending pass that removes expired messages and keeps the threads of what stays. */
module ChatRetention {
  import opened Wrappers

  type MessageId = string

  datatype Message = Message(channel: string, seqNo: nat, thread: Option<MessageId>, author: string, body: string, links: string,
                             replyCount: nat, createdAt: int, deletedAt: Option<int>)

  datatype File = File(message: Option<MessageId>, channel: string, sha: string, createdAt: int)

  datatype Channel = Channel(site: string, kind: string)

  /** A revision, mention or reaction row of a message. */
  datatype Mark = Revision(message: MessageId, n: nat) | Mention(message: MessageId, n: nat) | Reaction(message: MessageId, n: nat)

  type Messages = map<MessageId, Message>

  datatype Policy = Policy(cutoff: int, channels: map<string, Channel>, keep: Channel -> bool, keepAuthor: string -> bool)

  datatype PurgeResult = PurgeResult(deletedMessages: nat, blankedRoots: nat, protectedMessages: nat, deletedFiles: nat, fileHashes: set<string>)

  // ---------------------------------------------------------------------------------------------
  // What the pass is for
  // ---------------------------------------------------------------------------------------------

  predicate Protected(p: Policy, m: Message) {
    m.channel !in p.channels || p.keep(p.channels[m.channel]) || p.keepAuthor(m.author)
  }

  predicate Expired(p: Policy, m: Message) {
    m.createdAt < p.cutoff && !Protected(p, m)
  }

  predicate HasReply(t: Messages, id: MessageId) {
    exists r :: r in t && t[r].thread == Some(id)
  }

  function Blanked(m: Message, cutoff: int): Message {
    m.(body := "", links := "{}", deletedAt := if m.deletedAt.Some? then m.deletedAt else Some(cutoff))
  }

  /** The replies to `id` that are gone. */
  function GoneReplies(before: Messages, after: Messages, id: MessageId): set<MessageId> {
    set r | r in before && r !in after && before[r].thread == Some(id)
  }

  function Less(count: nat, n: nat): nat {
    if count < n then 0 else count - n
  }

  /** The row without its reply count, which only goes down with the replies that are gone. */
  function Counted(before: Messages, after: Messages, id: MessageId, m: Message): Message {
    m.(replyCount := Less(m.replyCount, |GoneReplies(before, after, id)|))
  }

  /** A message that is not expired stays as it is; an expired one is blanked while a reply to it stays, and else gone. */
  ghost predicate RowPurged(p: Policy, before: Messages, after: Messages, id: MessageId)
    requires id in before
  {
    if !Expired(p, before[id]) then id in after && after[id] == Counted(before, after, id, before[id])
    else if HasReply(after, id) then id in after && after[id] == Counted(before, after, id, Blanked(before[id], p.cutoff))
    else id !in after
  }

  ghost predicate Purged(p: Policy, before: Messages, after: Messages) {
    && after.Keys <= before.Keys
    && forall id {:trigger RowPurged(p, before, after, id)} :: id in before ==> RowPurged(p, before, after, id)
  }

  /** A reply names an earlier message of its channel. */
  ghost predicate Threaded(t: Messages) {
    forall r :: r in t && t[r].thread.Some? ==> RootFits(t, r, t[r].thread.value)
  }

  ghost predicate RootFits(t: Messages, r: MessageId, root: MessageId)
    requires r in t
  {
    root in t && t[root].channel == t[r].channel && t[root].seqNo < t[r].seqNo
  }

  /** The files a purge removes: those of expired messages, and old ones that never got a message. A channel that no longer
      exists protects its messages but not its stray files, and no author protects a stray file. */
  predicate FileExpired(p: Policy, t: Messages, f: File) {
    match f.message
    case Some(id) => id in t && Expired(p, t[id])
    case None => f.createdAt < p.cutoff && !(f.channel in p.channels && p.keep(p.channels[f.channel]))
  }

  function KeptFiles(p: Policy, t: Messages, files: map<string, File>): map<string, File> {
    map f | f in files && !FileExpired(p, t, files[f]) :: files[f]
  }

  function KeptMarks(p: Policy, t: Messages, marks: set<Mark>): set<Mark> {
    set k | k in marks && !(k.message in t && Expired(p, t[k.message]))
  }

  function OldOnes(t: Messages, cutoff: int): set<MessageId> {
    set id | id in t && t[id].createdAt < cutoff
  }

  function ProtectedOnes(p: Policy, t: Messages): set<MessageId> {
    set id | id in t && t[id].createdAt < p.cutoff && Protected(p, t[id])
  }

  function ExpiredOnes(p: Policy, t: Messages, among: Messages): set<MessageId> {
    set id | id in t && id in among && Expired(p, t[id])
  }

  // ---------------------------------------------------------------------------------------------
  // The pass
  // ---------------------------------------------------------------------------------------------

  /** The old messages, newest number first; numbers of different channels may tie in any order. */
  ghost predicate IsScan(t: Messages, cutoff: int, ids: seq<MessageId>) {
    && (forall i :: 0 <= i < |ids| ==> ids[i] in OldOnes(t, cutoff))
    && (forall id :: id in OldOnes(t, cutoff) ==> id in ids)
    && (forall i, j :: 0 <= i < j < |ids| ==> ids[i] != ids[j] && t[ids[i]].seqNo >= t[ids[j]].seqNo)
  }

  /** How far the pass has come when the messages `done` are behind it. */
  ghost predicate Progress(p: Policy, before: Messages, now: Messages, done: set<MessageId>) {
    && now.Keys <= before.Keys
    && forall id {:trigger RowAt(p, before, now, done, id)} :: id in before ==> RowAt(p, before, now, done, id)
  }

  ghost predicate RowAt(p: Policy, before: Messages, now: Messages, done: set<MessageId>, id: MessageId)
    requires id in before
  {
    if id in done then RowPurged(p, before, now, id) else Waiting(before, now, id)
  }

  ghost predicate Waiting(before: Messages, now: Messages, id: MessageId)
    requires id in before
  {
    id in now && now[id] == Counted(before, now, id, before[id])
  }

  /** `x` comes next in descending order. */
  ghost predicate Next(p: Policy, before: Messages, done: set<MessageId>, x: MessageId) {
    x in before && x !in done && forall id :: id in done && id in before ==> before[id].seqNo >= before[x].seqNo
  }

  lemma SameReplies(now: Messages, after: Messages, id: MessageId)
    requires forall r :: r in now && r in after ==> after[r].thread == now[r].thread
    requires forall r :: r in now && r !in after ==> now[r].thread != Some(id)
    requires after.Keys <= now.Keys
    ensures HasReply(after, id) <==> HasReply(now, id)
  {
  }

  lemma BlankStep(p: Policy, before: Messages, now: Messages, done: set<MessageId>, x: MessageId)
    requires Progress(p, before, now, done) && Next(p, before, done, x) && Expired(p, before[x]) && HasReply(now, x)
    ensures x in now && Progress(p, before, now[x := Blanked(now[x], p.cutoff)], done + {x})
  {
    assert RowAt(p, before, now, done, x);
    var after := now[x := Blanked(now[x], p.cutoff)];
    forall id | id in before
      ensures RowAt(p, before, after, done + {x}, id)
    {
      assert RowAt(p, before, now, done, id);
      SameReplies(now, after, id);
      assert GoneReplies(before, after, id) == GoneReplies(before, now, id);
    }
  }

  function Uncounted(t: Messages, root: Option<MessageId>): Messages {
    if root.Some? && root.value in t then t[root.value := t[root.value].(replyCount := Less(t[root.value].replyCount, 1))] else t
  }

  /** Deleting `x` takes a reply away from its root only, and the root is still to come. */
  lemma DeleteStep(p: Policy, before: Messages, now: Messages, done: set<MessageId>, x: MessageId)
    requires Progress(p, before, now, done) && Next(p, before, done, x) && Expired(p, before[x]) && !HasReply(now, x)
    requires Threaded(before)
    ensures x in now && Progress(p, before, Uncounted(now - {x}, now[x].thread), done + {x})
  {
    assert RowAt(p, before, now, done, x);
    var root := before[x].thread;
    var after := Uncounted(now - {x}, root);
    assert after.Keys == now.Keys - {x};
    assert forall r :: r in after ==> after[r].thread == now[r].thread;
    forall id | id in before
      ensures RowAt(p, before, after, done + {x}, id)
    {
      assert RowAt(p, before, now, done, id);
      if root == Some(id) {
        assert RootFits(before, x, id);
        assert id !in done && id != x;
        CountOneMore(before, now, after, x, id);
      } else {
        SameReplies(now, after, id);
        assert GoneReplies(before, after, id) == GoneReplies(before, now, id);
      }
    }
  }

  lemma CountOneMore(before: Messages, now: Messages, after: Messages, x: MessageId, root: MessageId)
    requires x in before && before[x].thread == Some(root) && now.Keys <= before.Keys && x in now && after.Keys == now.Keys - {x}
    ensures |GoneReplies(before, after, root)| == |GoneReplies(before, now, root)| + 1
  {
    assert GoneReplies(before, after, root) == GoneReplies(before, now, root) + {x};
  }

  lemma SkipStep(p: Policy, before: Messages, now: Messages, done: set<MessageId>, x: MessageId)
    requires Progress(p, before, now, done) && Next(p, before, done, x) && Protected(p, before[x])
    ensures Progress(p, before, now, done + {x})
  {
    forall id | id in before
      ensures RowAt(p, before, now, done + {x}, id)
    {
      assert RowAt(p, before, now, done, id);
    }
  }

  /** When all old messages are behind it, the pass has done its work. */
  lemma ProgressEnd(p: Policy, before: Messages, now: Messages, done: set<MessageId>)
    requires Progress(p, before, now, done) && done == OldOnes(before, p.cutoff)
    ensures Purged(p, before, now)
  {
    forall id | id in before
      ensures RowPurged(p, before, now, id)
    {
      assert RowAt(p, before, now, done, id);
    }
  }

  // ---------------------------------------------------------------------------------------------
  // The store
  // ---------------------------------------------------------------------------------------------

  function HashesOf(files: map<string, File>, which: set<string>): set<string> {
    set f | f in which && f in files :: files[f].sha
  }

  /** `now` is what is left of `all`, and the count and the hashes tell what was removed. */
  ghost predicate FilesLeft(all: map<string, File>, now: map<string, File>, count: nat, hashes: set<string>) {
    && (forall f :: f in now ==> f in all && now[f] == all[f])
    && count == |all.Keys - now.Keys| && hashes == HashesOf(all, all.Keys - now.Keys)
  }

  lemma FilesStep(all: map<string, File>, now: map<string, File>, count: nat, hashes: set<string>, which: set<string>)
    requires FilesLeft(all, now, count, hashes) && which <= now.Keys
    ensures FilesLeft(all, now - which, count + |which|, hashes + HashesOf(now, which))
  {
  }

  /** The files of a message. */
  function FilesOf(files: map<string, File>, id: MessageId): set<string> {
    set f | f in files && files[f].message == Some(id)
  }

  function MarksWithout(marks: set<Mark>, id: MessageId): set<Mark> {
    set k | k in marks && k.message != id
  }

  /** Old files that never got a message, in a channel that is not kept. */
  function Strays(p: Policy, files: map<string, File>): set<string> {
    set f | f in files && files[f].message.None? && FileExpired(p, map[], files[f])
  }

  predicate FileBehind(p: Policy, t: Messages, done: set<MessageId>, f: File) {
    f.message.Some? && f.message.value in done && f.message.value in t && Expired(p, t[f.message.value])
  }

  ghost predicate FilesBehind(p: Policy, t: Messages, done: set<MessageId>, all: map<string, File>, now: map<string, File>) {
    forall f :: f in all ==> (f in now <==> !FileBehind(p, t, done, all[f]))
  }

  function MarksBehind(p: Policy, t: Messages, done: set<MessageId>, marks: set<Mark>): set<Mark> {
    set k | k in marks && !(k.message in done && k.message in t && Expired(p, t[k.message]))
  }

  function BlankedIn(p: Policy, before: Messages, now: Messages, done: set<MessageId>): set<MessageId> {
    set id | id in done && id in before && id in now && Expired(p, before[id])
  }

  function ProtectedIn(p: Policy, before: Messages, done: set<MessageId>): set<MessageId> {
    set id | id in done && id in before && Protected(p, before[id])
  }

  /** The three counters after the messages `done`. */
  ghost predicate Tallied(p: Policy, before: Messages, now: Messages, done: set<MessageId>, r: PurgeResult) {
    && r.deletedMessages == |before.Keys - now.Keys| && r.blankedRoots == |BlankedIn(p, before, now, done)|
    && r.protectedMessages == |ProtectedIn(p, before, done)|
    && r.deletedMessages + r.blankedRoots + r.protectedMessages == |done|
  }

  lemma ProtectedGrows(p: Policy, before: Messages, done: set<MessageId>, x: MessageId)
    requires x in before
    ensures ProtectedIn(p, before, done + {x}) == ProtectedIn(p, before, done) + (if Protected(p, before[x]) then {x} else {})
  {
  }

  lemma BlankedGrows(p: Policy, before: Messages, now: Messages, after: Messages, done: set<MessageId>, x: MessageId)
    requires x in before && x !in done && after.Keys <= now.Keys && now.Keys <= after.Keys + {x}
    ensures BlankedIn(p, before, after, done + {x})
         == BlankedIn(p, before, now, done) + (if Expired(p, before[x]) && x in after then {x} else {})
  {
  }

  /** One more message is behind the pass: one of the counters goes up. */
  lemma TallyStep(p: Policy, before: Messages, now: Messages, after: Messages, done: set<MessageId>, x: MessageId,
                  r: PurgeResult, r': PurgeResult)
    requires Tallied(p, before, now, done, r) && Next(p, before, done, x) && before[x].createdAt < p.cutoff && x in now
    requires after.Keys == (if Protected(p, before[x]) || x in after then now.Keys else now.Keys - {x}) && now.Keys <= before.Keys
    requires if Protected(p, before[x]) then
               (r'.protectedMessages, r'.blankedRoots, r'.deletedMessages) == (r.protectedMessages + 1, r.blankedRoots, r.deletedMessages)
             else if x in after then
               (r'.protectedMessages, r'.blankedRoots, r'.deletedMessages) == (r.protectedMessages, r.blankedRoots + 1, r.deletedMessages)
             else
               (r'.protectedMessages, r'.blankedRoots, r'.deletedMessages) == (r.protectedMessages, r.blankedRoots, r.deletedMessages + 1)
    ensures Tallied(p, before, after, done + {x}, r')
  {
    ProtectedGrows(p, before, done, x);
    BlankedGrows(p, before, now, after, done, x);
    GoneGrows(before.Keys, now.Keys, after.Keys, x);
    GrowBy(ProtectedIn(p, before, done), ProtectedIn(p, before, done + {x}), x, Protected(p, before[x]));
    GrowBy(BlankedIn(p, before, now, done), BlankedIn(p, before, after, done + {x}), x, Expired(p, before[x]) && x in after);
    GrowBy(before.Keys - now.Keys, before.Keys - after.Keys, x, x !in after);
    GrowBy(done, done + {x}, x, true);
  }

  lemma GrowBy(a: set<string>, b: set<string>, x: string, grows: bool)
    requires x !in a && b == a + (if grows then {x} else {})
    ensures |b| == |a| + (if grows then 1 else 0)
  {
  }

  lemma GoneGrows(all: set<string>, now: set<string>, after: set<string>, x: string)
    requires after <= now <= all && x in now && now <= after + {x}
    ensures all - after == (all - now) + (if x in after then {} else {x})
  {
  }

  lemma {:induction false} NewestExists(t: Messages, some: set<MessageId>) returns (newest: MessageId)
    requires some != {} && some <= t.Keys
    ensures newest in some && forall id :: id in some ==> t[id].seqNo <= t[newest].seqNo
    decreases |some|
  {
    var x :| x in some;
    newest := x;
    var rest := some - {x};
    assert forall id :: id in some ==> id == x || id in rest;
    if rest == {} {
    } else {
      var y := NewestExists(t, rest);
      newest := if t[y].seqNo > t[x].seqNo then y else x;
    }
  }

  class CloudChatStore {
    var messages: Messages
    var channels: map<string, Channel>
    var files: map<string, File>
    var marks: set<Mark>

    constructor ()
      ensures messages == map[] && channels == map[] && files == map[] && marks == {}
    {
      messages, channels, files, marks := map[], map[], map[], {};
    }

    /** The messages created before `cutoff`, newest number first. */
    method SelectOld(cutoff: int) returns (ids: seq<MessageId>)
      ensures IsScan(messages, cutoff, ids)
    {
      var rest := OldOnes(messages, cutoff);
      ids := [];
      while rest != {}
        invariant rest <= OldOnes(messages, cutoff)
        invariant forall id :: id in OldOnes(messages, cutoff) ==> (id in ids <==> id !in rest)
        invariant forall i :: 0 <= i < |ids| ==> ids[i] in OldOnes(messages, cutoff)
        invariant forall i, id :: 0 <= i < |ids| && id in rest ==> messages[id].seqNo <= messages[ids[i]].seqNo
        invariant forall i, j :: 0 <= i < j < |ids| ==> ids[i] != ids[j] && messages[ids[i]].seqNo >= messages[ids[j]].seqNo
        decreases |rest|
      {
        ghost var _ := NewestExists(messages, rest);
        var id :| id in rest && forall o :: o in rest ==> messages[o].seqNo <= messages[id].seqNo;
        ids := ids + [id];
        rest := rest - {id};
      }
    }

    /** Removes the files and the other rows that hang on a message. */
    method DeleteAttachments(id: MessageId, count: nat, hashes: set<string>) returns (count': nat, hashes': set<string>)
      modifies this`files, this`marks
      ensures var mine := FilesOf(old(files), id);
        files == old(files) - mine && count' == count + |mine| && hashes' == hashes + HashesOf(old(files), mine)
      ensures marks == MarksWithout(old(marks), id)
    {
      var mine := FilesOf(files, id);
      count', hashes' := count + |mine|, hashes + HashesOf(files, mine);
      files := files - mine;
      marks := MarksWithout(marks, id);
    }

    /** Blanks the message while it has a reply; else removes it and lowers its root's reply count. */
    method BlankOrDelete(id: MessageId, cutoff: int, r: PurgeResult, ghost p: Policy, ghost before: Messages, ghost done: set<MessageId>)
        returns (r': PurgeResult)
      requires RowsPassed(p, before, messages, done, r) && Next(p, before, done, id) && Expired(p, before[id])
      requires p.cutoff == cutoff && Threaded(before)
      modifies this`messages
      ensures RowsPassed(p, before, messages, done + {id}, r')
      ensures r'.deletedFiles == r.deletedFiles && r'.fileHashes == r.fileHashes
    {
      assert RowAt(p, before, messages, done, id);
      var row := messages[id];
      if HasReply(messages, id) {
        BlankStep(p, before, messages, done, id);
        r' := r.(blankedRoots := r.blankedRoots + 1);
        TallyStep(p, before, messages, messages[id := Blanked(row, cutoff)], done, id, r, r');
        messages := messages[id := Blanked(row, cutoff)];
        return;
      }
      DeleteStep(p, before, messages, done, id);
      r' := r.(deletedMessages := r.deletedMessages + 1);
      TallyStep(p, before, messages, Uncounted(messages - {id}, row.thread), done, id, r, r');
      messages := messages - {id};
      if row.thread.Some? && row.thread.value in messages {
        var root := row.thread.value;
        messages := messages[root := messages[root].(replyCount := Less(messages[root].replyCount, 1))];
      }
    }

    /** One turn of the pass. */
    method PurgeRow(id: MessageId, p: Policy, r: PurgeResult, ghost before: Messages, ghost all: map<string, File>,
                    ghost tags: set<Mark>, ghost done: set<MessageId>) returns (r': PurgeResult)
      requires RowsPassed(p, before, messages, done, r)
      requires FilesPassed(p, before, all, tags, files, marks, done, r.deletedFiles, r.fileHashes)
      requires Next(p, before, done, id) && before[id].createdAt < p.cutoff && Threaded(before)
      modifies this`messages, this`files, this`marks
      ensures RowsPassed(p, before, messages, done + {id}, r')
      ensures FilesPassed(p, before, all, tags, files, marks, done + {id}, r'.deletedFiles, r'.fileHashes)
    {
      assert RowAt(p, before, messages, done, id);
      if Protected(p, messages[id]) {
        SkipStep(p, before, messages, done, id);
        FilesPassSkip(p, before, all, tags, files, marks, done, id, r.deletedFiles, r.fileHashes);
        r' := r.(protectedMessages := r.protectedMessages + 1);
        TallyStep(p, before, messages, messages, done, id, r, r');
        return;
      }
      FilesPassStep(p, before, all, tags, files, marks, done, id, r.deletedFiles, r.fileHashes);
      var count, hashes := DeleteAttachments(id, r.deletedFiles, r.fileHashes);
      r' := BlankOrDelete(id, p.cutoff, r.(deletedFiles := count, fileHashes := hashes), p, before, done);
    }

    method PassOver(ids: seq<MessageId>, p: Policy) returns (r: PurgeResult)
      requires IsScan(messages, p.cutoff, ids) && Threaded(messages)
      modifies this`messages, this`files, this`marks
      ensures RowsPassed(p, old(messages), messages, FirstOnes(ids, |ids|), r)
      ensures FilesPassed(p, old(messages), old(files), old(marks), files, marks, FirstOnes(ids, |ids|), r.deletedFiles, r.fileHashes)
    {
      r := PurgeResult(0, 0, 0, 0, {});
      ghost var before, all, tags := messages, files, marks;
      for i := 0 to |ids|
        invariant RowsPassed(p, before, messages, FirstOnes(ids, i), r)
        invariant FilesPassed(p, before, all, tags, files, marks, FirstOnes(ids, i), r.deletedFiles, r.fileHashes)
      {
        NextInScan(p, before, ids, i);
        r := PurgeRow(ids[i], p, r, before, all, tags, FirstOnes(ids, i));
      }
    }

    method PurgeBefore(cutoff: int, keep: Channel -> bool, keepAuthor: string -> bool) returns (r: PurgeResult)
      requires Threaded(messages)
      modifies this`messages, this`files, this`marks
      ensures var p := Policy(cutoff, channels, keep, keepAuthor);
        && Purged(p, old(messages), messages)
        && Tallied(p, old(messages), messages, OldOnes(old(messages), cutoff), r)
        && files == KeptFiles(p, old(messages), old(files)) && marks == KeptMarks(p, old(messages), old(marks))
        && FilesLeft(old(files), files, r.deletedFiles, r.fileHashes)
    {
      var p := Policy(cutoff, channels, keep, keepAuthor);
      var ids := SelectOld(cutoff);
      r := PassOver(ids, p);
      AllScanned(old(messages), cutoff, ids);
      ProgressEnd(p, old(messages), messages, OldOnes(old(messages), cutoff));
      FilesEnd(p, old(messages), old(files), old(marks), files, marks, r.deletedFiles, r.fileHashes);
      var strays := Strays(p, files);
      r := r.(deletedFiles := r.deletedFiles + |strays|, fileHashes := r.fileHashes + HashesOf(files, strays));
      files := files - strays;
    }
  }

  lemma KeptAtEnd(p: Policy, before: Messages, all: map<string, File>, files: map<string, File>)
    requires FilesBehind(p, before, OldOnes(before, p.cutoff), all, files) && forall f :: f in files ==> f in all && files[f] == all[f]
    ensures files - Strays(p, files) == KeptFiles(p, before, all)
  {
  }

  lemma FilesEnd(p: Policy, before: Messages, all: map<string, File>, tags: set<Mark>, files: map<string, File>, marks: set<Mark>,
                 count: nat, hashes: set<string>)
    requires FilesPassed(p, before, all, tags, files, marks, OldOnes(before, p.cutoff), count, hashes)
    ensures marks == KeptMarks(p, before, tags) && files - Strays(p, files) == KeptFiles(p, before, all)
    ensures FilesLeft(all, files - Strays(p, files), count + |Strays(p, files)|, hashes + HashesOf(files, Strays(p, files)))
  {
    KeptAtEnd(p, before, all, files);
    FilesStep(all, files, count, hashes, Strays(p, files));
  }

  ghost predicate RowsPassed(p: Policy, before: Messages, now: Messages, done: set<MessageId>, r: PurgeResult) {
    Progress(p, before, now, done) && Tallied(p, before, now, done, r)
  }

  ghost predicate FilesPassed(p: Policy, before: Messages, all: map<string, File>, tags: set<Mark>, files: map<string, File>,
                              marks: set<Mark>, done: set<MessageId>, count: nat, hashes: set<string>)
  {
    && FilesLeft(all, files, count, hashes) && FilesBehind(p, before, done, all, files)
    && marks == MarksBehind(p, before, done, tags)
  }

  lemma FilesPassSkip(p: Policy, before: Messages, all: map<string, File>, tags: set<Mark>, files: map<string, File>,
                      marks: set<Mark>, done: set<MessageId>, x: MessageId, count: nat, hashes: set<string>)
    requires FilesPassed(p, before, all, tags, files, marks, done, count, hashes) && Next(p, before, done, x) && Protected(p, before[x])
    ensures FilesPassed(p, before, all, tags, files, marks, done + {x}, count, hashes)
  {
  }

  lemma FilesPassStep(p: Policy, before: Messages, all: map<string, File>, tags: set<Mark>, files: map<string, File>,
                      marks: set<Mark>, done: set<MessageId>, x: MessageId, count: nat, hashes: set<string>)
    requires FilesPassed(p, before, all, tags, files, marks, done, count, hashes) && Next(p, before, done, x) && Expired(p, before[x])
    ensures var mine := FilesOf(files, x);
      FilesPassed(p, before, all, tags, files - mine, MarksWithout(marks, x), done + {x}, count + |mine|, hashes + HashesOf(files, mine))
  {
    FilesStep(all, files, count, hashes, FilesOf(files, x));
    assert MarksBehind(p, before, done + {x}, tags) == MarksWithout(marks, x);
  }

  function FirstOnes(ids: seq<MessageId>, i: nat): set<MessageId>
    requires i <= |ids|
  {
    set j | 0 <= j < i :: ids[j]
  }

  lemma NextInScan(p: Policy, before: Messages, ids: seq<MessageId>, i: nat)
    requires IsScan(before, p.cutoff, ids) && i < |ids|
    ensures Next(p, before, FirstOnes(ids, i), ids[i]) && before[ids[i]].createdAt < p.cutoff
    ensures FirstOnes(ids, i + 1) == FirstOnes(ids, i) + {ids[i]}
  {
  }

  lemma AllScanned(before: Messages, cutoff: int, ids: seq<MessageId>)
    requires IsScan(before, cutoff, ids)
    ensures FirstOnes(ids, |ids|) == OldOnes(before, cutoff)
  {
  }

  // ---------------------------------------------------------------------------------------------
  // What the pass guarantees
  // ---------------------------------------------------------------------------------------------

  /** Nothing but body, links, deletion time and reply count of a surviving message changes. */
  ghost predicate SamePlace(a: Message, b: Message) {
    a.channel == b.channel && a.seqNo == b.seqNo && a.thread == b.thread && a.author == b.author && a.createdAt == b.createdAt
  }

  lemma SurvivorsKeepPlace(p: Policy, before: Messages, after: Messages)
    requires Purged(p, before, after)
    ensures forall id :: id in after ==> id in before && SamePlace(after[id], before[id])
  {
    forall id | id in after
      ensures id in before && SamePlace(after[id], before[id])
    {
      assert RowPurged(p, before, after, id);
    }
  }

  /** Old, in a channel that exists and is not kept, and of an author who is not kept. */
  ghost predicate Due(p: Policy, m: Message) {
    m.createdAt < p.cutoff && m.channel in p.channels && !p.keep(p.channels[m.channel]) && !p.keepAuthor(m.author)
  }

  /** What is left of a message that stays: of one that is due only its place in the thread, with its text and links gone and the
      cutoff for a deletion time if it had none; everything of one that is not. Its reply count goes down by the replies that went. */
  lemma WhatStaysOfAMessage(p: Policy, before: Messages, after: Messages, id: MessageId)
    requires Purged(p, before, after) && id in after
    ensures id in before
    ensures var m, left := before[id], after[id];
      && SamePlace(left, m)
      && (if Due(p, m) then
            left.body == "" && left.links == "{}" && left.deletedAt == (if m.deletedAt == None then Some(p.cutoff) else m.deletedAt)
          else
            left.body == m.body && left.links == m.links && left.deletedAt == m.deletedAt)
      && var gone := |set r | r in before && before[r].thread == Some(id) && r !in after|;
         if gone <= m.replyCount then left.replyCount + gone == m.replyCount else left.replyCount == 0
  {
    assert RowPurged(p, before, after, id);
    assert (set r | r in before && before[r].thread == Some(id) && r !in after) == GoneReplies(before, after, id);
  }

  /** A message that is due and stays has a reply that stays; one that is due and has none is gone, and no other message is. */
  lemma WhatGoes(p: Policy, before: Messages, after: Messages, id: MessageId)
    requires Purged(p, before, after) && id in before
    ensures id !in after <==> Due(p, before[id]) && forall r :: r in after ==> after[r].thread != Some(id)
  {
    assert RowPurged(p, before, after, id);
  }

  /** Files and marks go with the text: a message keeps them exactly when it keeps its text. A file without a message goes when it is
      old and its channel, if it still exists, is not kept; nothing else does. */
  lemma AttachmentsGoWithTheText(p: Policy, t: Messages, files: map<string, File>, f: string, marks: set<Mark>, k: Mark)
    requires f in files && k in marks
    ensures f in KeptFiles(p, t, files) ==> KeptFiles(p, t, files)[f] == files[f]
    ensures f in KeptFiles(p, t, files) <==>
      match files[f].message
      case Some(id) => id !in t || !Due(p, t[id])
      case None => files[f].createdAt >= p.cutoff || (files[f].channel in p.channels && p.keep(p.channels[files[f].channel]))
    ensures k in KeptMarks(p, t, marks) <==> k.message !in t || !Due(p, t[k.message])
    ensures KeptMarks(p, t, marks) <= marks && KeptFiles(p, t, files).Keys <= files.Keys
  {
  }

  /** Every surviving reply has its root row, in its channel and before it. */
  lemma PurgeKeepsThreads(p: Policy, before: Messages, after: Messages)
    requires Purged(p, before, after) && Threaded(before)
    ensures Threaded(after)
  {
    SurvivorsKeepPlace(p, before, after);
    forall r | r in after && after[r].thread.Some?
      ensures RootFits(after, r, after[r].thread.value)
    {
      var root := after[r].thread.value;
      assert RootFits(before, r, root);
      assert RowPurged(p, before, after, root);
      assert HasReply(after, root);
    }
  }

  /** Each message replies to the one before it, and the last one is not expired. */
  ghost predicate LivesOn(p: Policy, t: Messages, chain: seq<MessageId>) {
    && chain != [] && (forall k :: 0 <= k < |chain| ==> chain[k] in t)
    && (forall k :: 0 < k < |chain| ==> t[chain[k]].thread == Some(chain[k - 1]))
    && !Expired(p, t[chain[|chain| - 1]])
  }

  lemma {:induction false} LivingThreadStays(p: Policy, before: Messages, after: Messages, chain: seq<MessageId>)
    requires Purged(p, before, after) && LivesOn(p, before, chain)
    ensures chain[0] in after
  {
    assert RowPurged(p, before, after, chain[0]);
    if |chain| <= 1 {
    } else {
      assert forall k :: 0 <= k < |chain| - 1 ==> chain[1..][k] == chain[k + 1];
      assert LivesOn(p, before, chain[1..]);
      LivingThreadStays(p, before, after, chain[1..]);
      SurvivorsKeepPlace(p, before, after);
      assert after[chain[1]].thread == Some(chain[0]);
    }
  }

  lemma {:induction false} StayingHasLivingThread(p: Policy, before: Messages, after: Messages, id: MessageId, top: nat) returns (chain: seq<MessageId>)
    requires Purged(p, before, after) && Threaded(before) && id in after
    requires forall o :: o in before ==> before[o].seqNo <= top
    ensures LivesOn(p, before, chain) && chain[0] == id
    decreases top - before[id].seqNo
  {
    assert RowPurged(p, before, after, id);
    if !Expired(p, before[id]) {
      chain := [id];
    } else {
      SurvivorsKeepPlace(p, before, after);
      var r :| r in after && after[r].thread == Some(id);
      assert RootFits(before, r, id);
      var rest := StayingHasLivingThread(p, before, after, r, top);
      chain := [id] + rest;
    }
  }

  lemma {:induction false} TopExists(t: Messages) returns (top: nat)
    ensures forall o :: o in t ==> t[o].seqNo <= top
  {
    if t.Keys == {} {
      top := 0;
    } else {
      var newest := NewestExists(t, t.Keys);
      top := t[newest].seqNo;
    }
  }

  /** A message stays exactly when some message of the thread growing from it, itself included, is not expired. */
  lemma StaysExactlyWithItsThread(p: Policy, before: Messages, after: Messages, id: MessageId)
    requires Purged(p, before, after) && Threaded(before) && id in before
    ensures id in after <==> exists chain :: LivesOn(p, before, chain) && chain[0] == id
  {
    if id in after {
      var top := TopExists(before);
      var chain := StayingHasLivingThread(p, before, after, id, top);
    }
    forall chain | LivesOn(p, before, chain) && chain[0] == id
      ensures id in after
    {
      LivingThreadStays(p, before, after, chain);
    }
  }

  /** The outcome does not depend on how ties between channels were ordered. */
  lemma PurgeIsDetermined(p: Policy, before: Messages, a: Messages, b: Messages)
    requires Purged(p, before, a) && Purged(p, before, b) && Threaded(before)
    ensures a == b
  {
    forall id | id in before
      ensures id in a <==> id in b
    {
      StaysExactlyWithItsThread(p, before, a, id);
      StaysExactlyWithItsThread(p, before, b, id);
    }
    assert a.Keys == b.Keys;
    SurvivorsKeepPlace(p, before, a);
    SurvivorsKeepPlace(p, before, b);
    forall id | id in a
      ensures a[id] == b[id]
    {
      assert RowPurged(p, before, a, id) && RowPurged(p, before, b, id);
      SameReplies(a, b, id);
      assert GoneReplies(before, a, id) == GoneReplies(before, b, id);
    }
  }

  /** A second pass with the same cutoff changes no message. */
  lemma SecondPassChangesNothing(p: Policy, before: Messages, after: Messages, again: Messages)
    requires Purged(p, before, after) && Purged(p, after, again) && Threaded(before)
    ensures again == after
  {
    PurgeKeepsThreads(p, before, after);
    SurvivorsKeepPlace(p, before, after);
    forall id | id in after
      ensures RowPurged(p, after, after, id)
    {
      assert RowPurged(p, before, after, id);
      assert GoneReplies(after, after, id) == {};
    }
    PurgeIsDetermined(p, after, after, again);
  }

  /** The three counters sum to the number of old messages. */
  lemma CountersSum(p: Policy, before: Messages, after: Messages, r: PurgeResult)
    requires Purged(p, before, after) && Tallied(p, before, after, OldOnes(before, p.cutoff), r)
    ensures r.deletedMessages + r.blankedRoots + r.protectedMessages == |OldOnes(before, p.cutoff)|
    ensures r.deletedMessages == |before| - |after|
    ensures r.blankedRoots == |ExpiredOnes(p, before, after)| && r.protectedMessages == |ProtectedOnes(p, before)|
  {
    assert BlankedIn(p, before, after, OldOnes(before, p.cutoff)) == ExpiredOnes(p, before, after);
    assert ProtectedIn(p, before, OldOnes(before, p.cutoff)) == ProtectedOnes(p, before);
    assert after.Keys <= before.Keys;
  }
}
