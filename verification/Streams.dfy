/** The stream of one file: what `stream_file` sends of it and what the receiver
    makes of that. */
module Streams {
  import opened Basics
  import opened Disk
  import opened Receiving
  import opened Ownership
  import opened Frames
  import Names

  /* ---- the receiver: what is written is what was received ---- */

  predicate ExactRecv(t: Recv) {
    t.written == t.hashed && t.received == |t.written| && t.received <= t.size
  }

  /** Every live transfer has written exactly what it counted and hashed, and no
      more than was offered. */
  ghost predicate Exact(s: State) {
    forall id :: id in s.recv ==> ExactRecv(s.recv[id])
  }

  /** No transfer of `r` is new or changed. */
  ghost predicate Fewer(s: State, r: State) {
    forall id :: id in r.recv ==> id in s.recv && r.recv[id] == s.recv[id]
  }

  lemma SettleFailureFewer(s: State, t: Recv, id: nat, why: Reason, env: Env)
    ensures SettleFailure(s, t, id, why, env).recv == s.recv
  {
    hide FinalizeTree, SettleInDrag;
  }

  lemma DoneFewer(s: State, id: nat, digest: Digest, env: Env)
    ensures Done(s, id, digest, env).recv == s.recv - {id}
  {
    hide FinalizeTree, SettleInDrag, FinishRecv;
  }

  /** What a message does to the transfer `id`, if it is live afterwards. */
  lemma TransferAfter(s: State, m: Message, env: Env, id: nat)
    requires id in Handle(s, m, env).recv
    ensures var t := Handle(s, m, env).recv[id];
            if id !in s.recv then
              Offers(m) == Some(id) && t.size == m.size && t.received == 0 && t.written == t.hashed == []
            else if m.FileChunk? && m.id == id then
              var o := s.recv[id];
              && m.offset == o.received && o.received + |m.data| <= o.size && |m.data| <= CHUNK_SIZE
              && t == o.(received := o.received + |m.data|, hashed := o.hashed + m.data, written := o.written + m.data)
            else t == s.recv[id]
  {
    hide FinalizeDrag, FinalizeTree, SettleFailure, Done, RemoveFile, AcceptOffer, OfferInDrag, OfferTree;
    hide OfferInTree, MakeDir;
    hide DiscardDrag, MkdirAll, Chunk;
    match m
    case FileOffer(i, name, size) => AcceptedAfter(s, s.fileDir, i, name, size, None, None, env);
    case DragOffer(drag, i, name, size) => OfferInDragAfter(s, drag, i, name, size, env, id);
    case TreeFile(tree, i, rel, size) => OfferInTreeAfter(s, tree, i, rel, size, env, id);
    case DragBegin(drag, count) => BeginDragFewer(s, drag, count, env);
    case DragCancel(drag) => if s.DragIs(Some(drag)) { DiscardFewer(s.(drag := None), s.drag.value); }
    case FileChunk(i, offset, data) => ChunkAfter(s, i, offset, data, env);
    case FileDone(i, digest) => DoneFewer(s, i, digest, env);
    case FileCancel(i, why) => if i in s.recv { SettleFailureFewer(Drop(s, i), s.recv[i], i, why, env); }
    case _ =>
  }

  lemma DiscardFewer(s: State, d: Drag)
    ensures Fewer(s, DiscardDrag(s, d))
  {
  }

  lemma BeginDragFewer(s: State, drag: nat, count: nat, env: Env)
    ensures Fewer(s, BeginDrag(s, drag, count, env))
  {
    hide MkdirAll;
  }

  lemma ChunkAfter(s: State, i: nat, offset: nat, data: Bytes, env: Env)
    ensures var r := Chunk(s, i, offset, data, env);
            || r.recv == s.recv - {i}
            || (i in s.recv
                && var o := s.recv[i];
                && offset == o.received && o.received + |data| <= o.size && |data| <= CHUNK_SIZE
                && r.recv == s.recv[i := o.(received := o.received + |data|, hashed := o.hashed + data,
                                            written := o.written + data)])
  {
    hide SettleFailure, RemoveFile;
    if i in s.recv {
      forall w, r: State
        ensures SettleFailure(r, s.recv[i], i, w, env).recv == r.recv
      {
        SettleFailureFewer(r, s.recv[i], i, w, env);
      }
    } else {
      assert s.recv - {i} == s.recv;
    }
  }

  lemma AcceptedAfter(s: State, dir: Path, i: nat, name: string, size: nat, drag: Option<nat>, tree: Option<nat>,
                      env: Env)
    ensures var (r, accepted) := AcceptOffer(s, dir, i, name, size, drag, tree, env);
            accepted ==> var t := r.recv[i]; t.received == 0 && t.written == t.hashed == [] && t.size == size
  {
  }

  lemma OfferInDragAfter(s: State, drag: nat, i: nat, name: string, size: nat, env: Env, id: nat)
    requires id in OfferInDrag(s, drag, i, name, size, env).recv
    ensures var t := OfferInDrag(s, drag, i, name, size, env).recv[id];
            if id in s.recv then t == s.recv[id]
            else id == i && t.size == size && t.received == 0 && t.written == t.hashed == []
  {
    hide AcceptOffer, FinalizeDrag;
    if s.DragIs(Some(drag)) {
      var d := s.drag.value.(offered := s.drag.value.offered + 1);
      AcceptedAfter(s.WithDrag(d), d.dir, i, name, size, Some(drag), None, env);
    }
  }

  lemma OfferInTreeAfter(s: State, tree: nat, i: nat, rel: string, size: nat, env: Env, id: nat)
    requires id in OfferInTree(s, tree, i, rel, size, env).recv
    ensures var t := OfferInTree(s, tree, i, rel, size, env).recv[id];
            if id in s.recv then t == s.recv[id]
            else id == i && t.size == size && t.received == 0 && t.written == t.hashed == []
  {
    hide OpenInTree, Names.SanitizeRel;
    forall t: Tree, path: Path | tree in s.trees && t.failed.None? && path != []
      ensures var r := OpenInTree(s, tree, t, i, path, size, env);
              i !in s.recv && i in r.recv ==>
                r.recv[i].size == size && r.recv[i].received == 0 && r.recv[i].written == r.recv[i].hashed == []
    {
      OpenInTreeAfter(s, tree, t, i, path, size, env);
    }
  }

  lemma OpenInTreeAfter(s: State, tree: nat, t: Tree, i: nat, path: Path, size: nat, env: Env)
    requires tree in s.trees && t.failed.None? && path != []
    ensures var r := OpenInTree(s, tree, t, i, path, size, env);
            i !in s.recv && i in r.recv ==>
                r.recv[i].size == size && r.recv[i].received == 0 && r.recv[i].written == r.recv[i].hashed == []
  {
    hide AcceptOffer;
    var k := |path| - 1;
    AcceptedAfter(s.WithTree(tree, t), t.root + path[..k], i, path[k], size, t.drag, Some(tree), env);
  }

  lemma HandleKeepsExact(s: State, m: Message, env: Env)
    requires Exact(s)
    ensures Exact(Handle(s, m, env))
  {
    hide Handle;
    forall id | id in Handle(s, m, env).recv
      ensures ExactRecv(Handle(s, m, env).recv[id])
    {
      TransferAfter(s, m, env, id);
    }
  }

  /** The data of the chunks of transfer `id` since it was accepted. */
  function Collected(s: State, es: seq<Event>, id: nat): Bytes {
    if es == [] then []
    else
      var m, before := es[|es| - 1].m, Run(s, es[..|es| - 1]);
      if id !in before.recv then []
      else if m.FileChunk? && m.id == id then Collected(s, es[..|es| - 1], id) + m.data
      else Collected(s, es[..|es| - 1], id)
  }

  /** A live transfer has written, in order, exactly the chunks it was sent. */
  lemma {:induction false} WrittenIsCollected(s: State, es: seq<Event>, id: nat)
    requires IsNew(s) && id in Run(s, es).recv
    ensures ExactRecv(Run(s, es).recv[id]) && Run(s, es).recv[id].written == Collected(s, es, id)
  {
    hide Handle;
    if es != [] {
      var before := Run(s, es[..|es| - 1]);
      if id in before.recv { WrittenIsCollected(s, es[..|es| - 1], id); }
      TransferAfter(before, es[|es| - 1].m, es[|es| - 1].env, id);
    }
  }

  /* ---- the sender ---- */

  /** The chunks of `ms`, joined, if their offsets follow each other from `from`. */
  function Joined(ms: seq<Message>, id: nat): Option<Bytes> {
    if ms == [] then Some([])
    else
      var front, m := Joined(ms[..|ms| - 1], id), ms[|ms| - 1];
      if front.None? || !m.FileChunk? || m.id != id || m.offset != |front.value| || |m.data| > CHUNK_SIZE then None
      else Some(front.value + m.data)
  }

  lemma JoinedNone(id: nat)
    ensures Joined([], id) == Some([])
  {
  }

  lemma JoinedMore(ms: seq<Message>, id: nat, data: Bytes)
    requires Joined(ms, id).Some? && |data| <= CHUNK_SIZE
    ensures Joined(ms + [FileChunk(id, |Joined(ms, id).value|, data)], id) == Some(Joined(ms, id).value + data)
  {
    assert (ms + [FileChunk(id, |Joined(ms, id).value|, data)])[..|ms|] == ms;
  }

  /** What one turn of the reading loop meets: data, an error, or its cancellation. */
  datatype Read = Data(amount: nat) | ReadError | Aborted

  /** How the stream of a file ended: finished, its size changed, reading failed, or it was cancelled. */
  datatype Ending = Sent | Changed | Broken | Stopped

  /** `ms` is the stream of a file offered with `size` whose content while reading is `content`. */
  predicate Streamed(ms: seq<Message>, end: Ending, id: nat, size: nat, content: Bytes, sha: Bytes -> Digest) {
    if end.Stopped? then Joined(ms, id).Some? && Joined(ms, id).value <= content
    else
      && ms != []
      && var chunks, last := Joined(ms[..|ms| - 1], id), ms[|ms| - 1];
      && chunks.Some? && chunks.value <= content
      && match end
         case Sent => chunks.value == content && |content| == size && last == FileDone(id, sha(content))
         case Changed => chunks.value == content && |content| != size && last.FileCancel? && last.id == id
         case _ => last.FileCancel? && last.id == id
  }

  /** The reading loop of `stream_file`; `read` says what happens at each offset. */
  method StreamFile(id: nat, size: nat, content: Bytes, read: nat -> Read, sha: Bytes -> Digest)
    returns (ms: seq<Message>, end: Ending)
    ensures Streamed(ms, end, id, size, content, sha)
    ensures (forall offset: nat :: offset <= |content| ==> read(offset).Data?) ==> end.Sent? || end.Changed?
    ensures end.Broken? ==> exists offset: nat :: offset <= |content| && read(offset).ReadError?
    ensures end.Stopped? ==> exists offset: nat :: offset <= |content| && read(offset).Aborted?
  {
    hide Joined;
    ms := [];
    var offset, hashed := 0, [];
    JoinedNone(id);
    while true
      invariant offset <= |content| && hashed == content[..offset]
      invariant Joined(ms, id) == Some(content[..offset])
      decreases |content| - offset
    {
      match read(offset)
      case Aborted =>
        return ms, Stopped;
      case ReadError =>
        assert (ms + [FileCancel(id, WriteFailed)])[..|ms|] == ms;
        return ms + [FileCancel(id, WriteFailed)], Broken;
      case Data(amount) =>
        if offset == |content| {
          break;
        }
        var n := 1 + amount % CHUNK_SIZE;
        if n > |content| - offset { n := |content| - offset; }
        var data := content[offset..offset + n];
        hashed := hashed + data;
        JoinedMore(ms, id, data);
        ms := ms + [FileChunk(id, offset, data)];
        assert content[..offset] + data == content[..offset + n];
        offset := offset + n;
    }
    assert content[..offset] == content;
    ghost var chunks := ms;
    if offset != size {
      ms, end := ms + [FileCancel(id, Incomplete)], Changed;
    } else {
      ms, end := ms + [FileDone(id, sha(hashed))], Sent;
    }
    assert ms[..|ms| - 1] == chunks;
  }

  /** The chunks of transfer `id` that arrived since it was accepted. */
  function Arrived(s: State, es: seq<Event>, id: nat): seq<Message> {
    if es == [] then []
    else
      var m, before := es[|es| - 1].m, Run(s, es[..|es| - 1]);
      if id !in before.recv then []
      else if m.FileChunk? && m.id == id then Arrived(s, es[..|es| - 1], id) + [m]
      else Arrived(s, es[..|es| - 1], id)
  }

  /** They follow each other, and what was collected is their join. */
  lemma {:induction false} CollectedIsJoined(s: State, es: seq<Event>, id: nat)
    requires IsNew(s) && id in Run(s, es).recv
    ensures Joined(Arrived(s, es, id), id) == Some(Collected(s, es, id))
  {
    hide Handle, Joined;
    if es == [] {
    } else {
      var front, m := es[..|es| - 1], es[|es| - 1].m;
      var before := Run(s, front);
      TransferAfter(before, m, es[|es| - 1].env, id);
      if id in before.recv {
        CollectedIsJoined(s, front, id);
        WrittenIsCollected(s, front, id);
        if m.FileChunk? && m.id == id { JoinedMore(Arrived(s, front, id), id, m.data); }
      } else {
        JoinedNone(id);
      }
    }
  }

  function Events(ms: seq<Message>, env: Env): seq<Event> {
    seq(|ms|, i requires 0 <= i < |ms| => Event(ms[i], env))
  }

  /** What a live transfer makes of chunks that follow each other: it has written
      their join, provided that fits the offered size and every write gets through. */
  lemma {:induction false} ChunksArrive(s: State, ms: seq<Message>, id: nat, env: Env)
    requires id in s.recv && s.recv[id].received == 0 && s.recv[id].written == s.recv[id].hashed == []
    requires Joined(ms, id).Some? && |Joined(ms, id).value| <= s.recv[id].size && env.lucky(OpWrite(s.recv[id].part))
    ensures var r := Run(s, Events(ms, env));
            var data := Joined(ms, id).value;
            r == s.(recv := s.recv[id := s.recv[id].(received := |data|, hashed := data, written := data)])
  {
    hide Handle;
    var es := Events(ms, env);
    if ms == [] {
      assert s.recv[id := s.recv[id]] == s.recv;
    } else {
      var front, m := ms[..|ms| - 1], ms[|ms| - 1];
      assert es[..|es| - 1] == Events(front, env);
      assert |Joined(ms, id).value| >= |Joined(front, id).value|;
      ChunksArrive(s, front, id, env);
      ChunkArrives(Run(s, Events(front, env)), id, m.offset, m.data, env);
    }
  }

  /** One chunk that follows on and fits. */
  lemma ChunkArrives(s: State, id: nat, offset: nat, data: Bytes, env: Env)
    requires id in s.recv && s.recv[id].received == offset && offset + |data| <= s.recv[id].size && |data| <= CHUNK_SIZE
    requires env.lucky(OpWrite(s.recv[id].part))
    ensures Handle(s, FileChunk(id, offset, data), env)
         == s.(recv := s.recv[id := s.recv[id].(received := offset + |data|, hashed := s.recv[id].hashed + data,
                                                written := s.recv[id].written + data)])
  {
  }
}
