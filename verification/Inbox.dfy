/** The receiving side of one connection as the object it is: its tables are
    updated in place, message by message. Every method is proved to compute the
    function of the same name in Receiving. */
module Inbox {
  import opened Basics
  import opened Disk
  import opened Receiving
  import opened Ownership
  import R = Receiving
  import Names

  class Inbox {
    var fs: Fs
    const fileDir: Path
    const desktop: Option<Path>
    var recv: map<nat, Recv>
    var drag: Option<Drag>
    var trees: map<nat, Tree>
    /** what was sent back to the peer */
    var replies: seq<Reply>
    /** what reached its final place */
    var placed: seq<Placed>

    ghost function View(): State
      reads this
    {
      State(fs, fileDir, desktop, recv, trees, drag, replies, placed)
    }

    constructor (fs: Fs, fileDir: Path, desktop: Option<Path>)
      ensures IsNew(View()) && this.fs == fs && this.fileDir == fileDir && this.desktop == desktop
    {
      this.fs, this.fileDir, this.desktop := fs, fileDir, desktop;
      recv, drag, trees := map[], None, map[];
      replies, placed := [], [];
    }

    /** disambiguates `FileCancel`, which either side may send */
    method HasTransfer(id: nat) returns (known: bool)
      ensures known <==> id in recv
    {
      known := id in recv;
    }

    method Handle(m: Message, env: Env)
      modifies this
      ensures View() == R.Handle(old(View()), m, env)
    {
      hide R.AcceptOffer, R.BeginDrag, R.OfferInDrag, R.OfferTree, R.MakeDir, R.OfferInTree, R.Chunk, R.Done;
      hide R.SettleFailure, R.FinalizeTree, R.FinalizeDrag, R.DiscardDrag, RemoveFile;
      match m
      case FileOffer(id, name, size) =>
        var _ := AcceptOffer(fileDir, id, name, size, None, None, env);
      case DragBegin(d, count) => BeginDrag(d, count, env);
      case DragOffer(d, id, name, size) => OfferInDrag(d, id, name, size, env);
      case DragDrop(d) =>
        if drag.Some? && drag.value.drag == d {
          drag := Some(drag.value.(dropRequested := true));
          TryFinalizeDrag(env);
        }
      case DragCancel(d) =>
        if drag.Some? && drag.value.drag == d {
          var taken := drag.value;
          drag := None;
          DiscardDrag(taken);
        }
      case TreeOffer(tree, name, files, bytes, within) => TreeOffer(tree, name, files, bytes, within, env);
      case TreeDir(tree, rel) => TreeDir(tree, rel, env);
      case TreeFile(tree, id, rel, size) => TreeFile(tree, id, rel, size, env);
      case TreeEnd(tree, error) =>
        if tree in trees {
          trees := trees[tree := trees[tree].(ended := true)];
          if error.Some? {
            trees := trees[tree := trees[tree].Fail(FromPeer(error.value))];
          }
          assert trees == old(trees)[tree := trees[tree]];
          TryFinalizeTree(tree, env);
        }
      case FileChunk(id, offset, data) => Chunk(id, offset, data, env);
      case FileDone(id, digest) => Done(id, digest, env);
      case FileCancel(id, why) =>
        if id in recv {
          var t := recv[id];
          recv := recv - {id};
          fs := RemoveFile(fs, t.part);
          SettleFailure(t, id, why, env);
        }
    }

    method BeginDrag(d: nat, count: nat, env: Env)
      modifies this
      ensures View() == R.BeginDrag(old(View()), d, count, env)
    {
      if drag.Some? {
        var superseded := drag.value;
        drag := None;
        DiscardDrag(superseded);
      }
      var dir := fileDir + [DragStagingName(d)];
      var made := MkdirAll(fs, dir, env);
      if made.None? {
        return;
      }
      fs := made.value;
      drag := Some(Drag(d, dir, count, 0, {}, [], false));
    }

    method OfferInDrag(d: nat, id: nat, name: string, size: nat, env: Env)
      modifies this
      ensures View() == R.OfferInDrag(old(View()), d, id, name, size, env)
    {
      hide R.FinalizeDrag, R.AcceptOffer;
      if drag.None? || drag.value.drag != d {
        replies := replies + [Reject(id, NoDrag)];
        return;
      }
      drag := Some(drag.value.(offered := drag.value.offered + 1));
      var accepted := AcceptOffer(drag.value.dir, id, name, size, Some(d), None, env);
      if accepted {
        drag := Some(drag.value.(outstanding := drag.value.outstanding + {id}));
      } else {
        TryFinalizeDrag(env);
      }
    }

    method AcceptOffer(dir: Path, id: nat, name: string, size: nat, d: Option<nat>, tree: Option<nat>, env: Env)
      returns (accepted: bool)
      modifies this
      ensures (View(), accepted) == R.AcceptOffer(old(View()), dir, id, name, size, d, tree, env)
    {
      if id in recv {
        replies := replies + [Reject(id, IdInUse)];
        return false;
      }
      var transfer := BeginRecv(dir, id, name, size, d, tree, env);
      if transfer.Some? {
        recv := recv[id := transfer.value];
        replies := replies + [Accept(id)];
        return true;
      }
      replies := replies + [Reject(id, if Names.Sanitize(name).None? then BadName else CannotCreate)];
      return false;
    }

    method BeginRecv(dir: Path, id: nat, offered: string, size: nat, d: Option<nat>, tree: Option<nat>, env: Env)
      returns (transfer: Option<Recv>)
      modifies this`fs
      ensures (fs, transfer) == R.BeginRecv(old(fs), dir, id, offered, size, d, tree, env)
    {
      var name := Names.Sanitize(offered);
      if name.None? {
        return None;
      }
      var made := MkdirAll(fs, dir, env);
      if made.None? {
        return None;
      }
      fs := made.value;
      var final := UniquePath(fs, dir, name.value);
      var part := UniquePath(fs, dir, final[|final| - 1] + ".vylopart");
      var created := CreatePart(fs, part, id, env);
      if created.None? {
        return None;
      }
      fs := created.value;
      return Some(Recv(name.value, size, 0, part, final, [], [], d, tree));
    }

    method TreeOffer(tree: nat, name: string, files: nat, bytes: nat, d: Option<nat>, env: Env)
      modifies this
      ensures View() == R.OfferTree(old(View()), tree, name, files, bytes, d, env)
    {
      if tree in trees {
        return;
      }
      var parent, staging := fileDir + [TreeStagingName(tree)], None;
      if d.Some? {
        if drag.None? || drag.value.drag != d.value {
          trees := trees[tree := RefusedTree(name, files, bytes, d, false, NoDrag)];
          return;
        }
        drag := Some(drag.value.(offered := drag.value.offered + 1, outstanding := drag.value.outstanding + {tree}));
        parent := drag.value.dir;
      } else {
        staging := Some(parent);
      }
      var safe := Names.Sanitize(name);
      if safe.None? {
        trees := trees[tree := RefusedTree(name, files, bytes, d, d.Some?, BadName)];
        return;
      }
      var made := MkdirAll(fs, parent, env);
      if made.None? {
        trees := trees[tree := RefusedTree(safe.value, files, bytes, d, d.Some?, CannotCreate)];
        return;
      }
      fs := made.value;
      var root := UniqueDirPath(fs, parent, safe.value);
      var t := Tree(safe.value, root, staging, d, files, bytes, 0, {}, 0, false, None, d.Some?, [], [], [], []);
      var rooted := MkdirAll(fs, root, env);
      if rooted.Some? {
        fs := rooted.value;
      } else {
        t := t.Fail(CannotCreate);
      }
      trees := trees[tree := t];
    }

    method TreeDir(tree: nat, rel: string, env: Env)
      modifies this
      ensures View() == R.MakeDir(old(View()), tree, rel, env)
    {
      if tree !in trees || trees[tree].failed.Some? {
        return;
      }
      var t := trees[tree].(entries := trees[tree].entries + 1, dirs := trees[tree].dirs + [rel]);
      if t.entries > MAX_TREE_ENTRIES {
        trees := trees[tree := t.Fail(TooManyEntries)];
        return;
      }
      var path := Names.SanitizeRelPath(rel);
      if path.None? {
        trees := trees[tree := t.Fail(BadPath)];
        return;
      }
      var made := MkdirAll(fs, t.root + path.value, env);
      if made.None? {
        trees := trees[tree := t.Fail(CannotCreate)];
        return;
      }
      fs := made.value;
      trees := trees[tree := t.(made := t.made + [rel])];
    }

    method TreeFile(tree: nat, id: nat, rel: string, size: nat, env: Env)
      modifies this
      ensures View() == R.OfferInTree(old(View()), tree, id, rel, size, env)
    {
      hide R.AcceptOffer, Names.SanitizeRel;
      if tree !in trees {
        replies := replies + [Reject(id, NoTree)];
        return;
      }
      if trees[tree].failed.Some? {
        replies := replies + [Reject(id, TreeFailed(trees[tree].failed.value))];
        return;
      }
      var t := trees[tree].(entries := trees[tree].entries + 1, offered := trees[tree].offered + [id]);
      trees := trees[tree := t];
      if t.entries > MAX_TREE_ENTRIES {
        trees := trees[tree := t.Fail(TooManyEntries)];
        replies := replies + [Reject(id, TooManyEntries)];
        return;
      }
      var path := Names.SanitizeRelPath(rel);
      if path.None? || path.value == [] {
        trees := trees[tree := t.Fail(BadPath)];
        replies := replies + [Reject(id, BadPath)];
        return;
      }
      var k := |path.value| - 1;
      var accepted := AcceptOffer(t.root + path.value[..k], id, path.value[k], size, t.drag, Some(tree), env);
      if accepted {
        trees := trees[tree := t.(outstanding := t.outstanding + {id})];
      } else {
        trees := trees[tree := t.Fail(NotReceived)];
      }
    }

    method Chunk(id: nat, offset: nat, data: Bytes, env: Env)
      modifies this
      ensures View() == R.Chunk(old(View()), id, offset, data, env)
    {
      hide R.SettleFailure, RemoveFile;
      if id !in recv {
        return;
      }
      var t := recv[id];
      var error := None;
      if |data| > CHUNK_SIZE || t.received + |data| > t.size {
        error := Some(TooLarge);
      } else if offset != t.received {
        error := Some(OutOfOrder);
      } else {
        recv := recv[id := t.(hashed := t.hashed + data)];
        if env.lucky(OpWrite(t.part)) {
          recv := recv[id := recv[id].(written := t.written + data, received := t.received + |data|)];
        } else {
          error := Some(WriteFailed);
        }
      }
      if error.Some? {
        assert recv - {id} == old(recv) - {id};
        recv := recv - {id};
        replies := replies + [Abort(id, error.value)];
        fs := RemoveFile(fs, t.part);
        assert View() == Drop(old(View()), id).Say(Abort(id, error.value));
        SettleFailure(t, id, error.value, env);
      }
    }

    method FinishRecv(id: nat, t: Recv, digest: Digest, env: Env) returns (error: Option<Reason>)
      modifies this`fs
      ensures (fs, error) == R.FinishRecv(old(fs), id, t, digest, env)
    {
      if env.sha(t.hashed) != digest {
        fs := RemoveFile(fs, t.part);
        return Some(Mismatch);
      }
      if t.received != t.size {
        fs := RemoveFile(fs, t.part);
        return Some(Incomplete);
      }
      var renamed := RenameFile(fs, t.part, t.final, id, t.written, env);
      if renamed.None? {
        return Some(CannotRename);
      }
      fs := renamed.value;
      return None;
    }

    method Done(id: nat, digest: Digest, env: Env)
      modifies this
      ensures View() == R.Done(old(View()), id, digest, env)
    {
      hide R.FinishRecv, R.FinalizeTree, R.FinalizeDrag;
      if id !in recv {
        return;
      }
      var t := recv[id];
      recv := recv - {id};
      var error := FinishRecv(id, t, digest, env);
      if t.tree.Some? {
        var tree := t.tree.value;
        if tree in trees {
          var tr := trees[tree].(outstanding := trees[tree].outstanding - {id});
          if error.None? {
            tr := tr.(doneBytes := tr.doneBytes + t.size, verified := tr.verified + [Verified(id, t.size)]);
          } else {
            tr := tr.Fail(InFile(t.name, error.value));
          }
          trees := trees[tree := tr];
          TryFinalizeTree(tree, env);
        }
      } else {
        if error.None? && t.drag.None? {
          placed := placed + [Placed(id, false, t.final, None)];
        }
        if t.drag.Some? && drag.Some? && drag.value.drag == t.drag.value {
          drag := Some(drag.value.(outstanding := drag.value.outstanding - {id}));
          if error.None? {
            drag := Some(drag.value.(done := drag.value.done + [Staged(id, t.name, false, t.size, t.final, None)]));
          }
          TryFinalizeDrag(env);
        }
      }
    }

    method SettleFailure(t: Recv, id: nat, why: Reason, env: Env)
      modifies this
      ensures View() == R.SettleFailure(old(View()), t, id, why, env)
    {
      if t.tree.Some? {
        var tree := t.tree.value;
        if tree in trees {
          trees := trees[tree := trees[tree].(outstanding := trees[tree].outstanding - {id}).Fail(InFile(t.name, why))];
          TryFinalizeTree(tree, env);
        }
      } else if t.drag.Some? && drag.Some? && drag.value.drag == t.drag.value {
        drag := Some(drag.value.(outstanding := drag.value.outstanding - {id}));
        TryFinalizeDrag(env);
      }
    }

    method TryFinalizeTree(tree: nat, env: Env)
      modifies this
      ensures View() == R.FinalizeTree(old(View()), tree, env)
    {
      if tree !in trees || !trees[tree].Settled() {
        return;
      }
      var t := trees[tree];
      trees := trees - {tree};
      var inDrag := t.drag.Some? && drag.Some? && drag.value.drag == t.drag.value;
      if t.failed.Some? {
        if t.root != [] {
          fs := RemoveDir(fs, t.root);
        }
        if t.staging.Some? {
          fs := RemoveDir(fs, t.staging.value);
        }
        if inDrag {
          drag := Some(drag.value.(outstanding := drag.value.outstanding - {tree}));
          TryFinalizeDrag(env);
        }
        return;
      }
      if t.drag.Some? {
        if inDrag {
          drag := Some(drag.value.(outstanding := drag.value.outstanding - {tree},
                                   done := drag.value.done + [Staged(tree, t.name, true, t.total, t.root, Some(t))]));
          TryFinalizeDrag(env);
        } else {
          fs := RemoveDir(fs, t.root);
        }
        return;
      }
      fs := OrElse(MkdirAll(fs, fileDir, env), fs);
      var dest := UniqueDirPath(fs, fileDir, t.name);
      var moved := MovePath(fs, t.root, dest, env);
      fs := OrElse(moved, fs);
      if t.staging.Some? {
        fs := RemoveDir(fs, t.staging.value);
      }
      if moved.Some? {
        placed := placed + [Placed(tree, true, dest, Some(t))];
      } else {
        fs := RemoveDir(fs, t.root);
      }
    }

    method TryFinalizeDrag(env: Env)
      modifies this
      ensures View() == R.FinalizeDrag(old(View()), env)
    {
      hide PlaceAll, MkdirAll, RemoveDir;
      if drag.None? || !drag.value.dropRequested || !drag.value.Settled() {
        return;
      }
      var d := drag.value;
      drag := None;
      var dest := if desktop.Some? then desktop.value else fileDir;
      fs := OrElse(MkdirAll(fs, dest, env), fs);
      PlaceItems(d.done, dest, env);
      fs := RemoveDir(fs, d.dir);
    }

    /** Moves the staged items into `dest`, skipping those that cannot be moved. */
    method PlaceItems(items: seq<Staged>, dest: Path, env: Env)
      modifies this`fs, this`placed
      ensures (fs, placed) == (PlaceAll(old(fs), items, dest, env).0,
                               old(placed) + PlaceAll(old(fs), items, dest, env).1)
    {
      hide MovePath, FreeDirPath, FreeFilePath;
      assert items[..0] == [] && placed + [] == placed;
      for i := 0 to |items|
        invariant fs == PlaceAll(old(fs), items[..i], dest, env).0
        invariant placed == old(placed) + PlaceAll(old(fs), items[..i], dest, env).1
      {
        var item := items[i];
        assert items[..i + 1][..i] == items[..i] && items[..i + 1][i] == item;
        var target;
        if item.folder {
          target := UniqueDirPath(fs, dest, item.name);
        } else {
          target := UniquePath(fs, dest, item.name);
        }
        var moved := MovePath(fs, item.path, target, env);
        if moved.Some? {
          fs := moved.value;
          placed := placed + [Placed(item.id, item.folder, target, item.record)];
        }
      }
      assert items[..|items|] == items;
    }

    /** Takes transfers out one by one, with their temporary files. */
    method DropFiles(ids: set<nat>)
      modifies this
      ensures View() == old(View()).(recv := old(recv) - ids, fs := RemoveFiles(old(fs), PartsOf(old(View()), ids)))
    {
      var left := ids;
      assert PartsOf(old(View()), ids - left) == {} && RemoveFiles(fs, {}) == fs;
      while left != {}
        invariant left <= ids
        invariant View() == old(View()).(recv := old(recv) - (ids - left),
                                         fs := RemoveFiles(old(fs), PartsOf(old(View()), ids - left)))
      {
        var id :| id in left;
        ghost var gone := PartsOf(old(View()), ids - left);
        if id in recv {
          var part := recv[id].part;
          recv := recv - {id};
          assert PartsOf(old(View()), ids - (left - {id})) == gone + {part};
          assert RemoveFile(fs, part) == RemoveFiles(old(fs), gone + {part});
          fs := RemoveFile(fs, part);
        } else {
          assert PartsOf(old(View()), ids - (left - {id})) == gone;
        }
        left := left - {id};
        assert recv == old(recv) - (ids - left);
      }
      assert ids - left == ids;
    }

    method DiscardDrag(d: Drag)
      modifies this
      ensures View() == R.DiscardDrag(old(View()), d)
    {
      hide RemoveFiles, PartsOf;
      ghost var s := old(View());
      DropFiles(d.outstanding);
      var inside := set t | t in trees && trees[t].drag == Some(d.drag);
      var left := inside;
      ghost var gone := d.outstanding;
      while left != {}
        invariant left <= inside && trees == s.trees - (inside - left)
        invariant forall id :: id in gone <==> id in d.outstanding || InFolders(s, inside - left, id)
        invariant View() == s.(recv := s.recv - gone, trees := trees, fs := RemoveFiles(s.fs, PartsOf(s, gone)))
      {
        var t :| t in left;
        var ids := trees[t].outstanding;
        trees := trees - {t};
        DropFiles(ids);
        DropMore(s, gone, ids);
        DropFolder(s, inside, left, t);
        gone, left := gone + ids, left - {t};
      }
      assert inside - left == inside;
      DropKnown(s, gone, Doomed(s, d)) by { assert forall id :: id in s.recv ==> (id in gone <==> id in Doomed(s, d)); }
      assert trees == map t | t in s.trees && s.trees[t].drag != Some(d.drag) :: s.trees[t];
      fs := RemoveDir(fs, d.dir);
    }

    method Close()
      modifies this
      ensures View() == R.Close(old(View()))
    {
      hide RemoveDir, RemoveFiles, RemoveDirs, TreeDirs, DirsOf;
      ghost var s := old(View());
      DropFiles(recv.Keys);
      assert s.recv - s.recv.Keys == map[];
      ghost var fs1 := fs;
      ghost var gone: set<Path> := {};
      RemoveNoDirs(fs1);
      NoDirsOf(s);
      var left := trees.Keys;
      assert trees.Keys - left == {};
      while left != {}
        invariant left <= trees.Keys && trees == s.trees
        invariant gone == DirsOf(s, trees.Keys - left)
        invariant View() == s.(recv := map[], fs := RemoveDirs(fs1, gone))
      {
        var t :| t in left;
        RemoveDirsStep(fs1, gone, trees[t].root);
        fs := RemoveDir(fs, trees[t].root);
        gone := gone + {trees[t].root};
        if trees[t].staging.Some? {
          RemoveDirsStep(fs1, gone, trees[t].staging.value);
          fs := RemoveDir(fs, trees[t].staging.value);
          gone := gone + {trees[t].staging.value};
        }
        DirsOfMore(s, trees.Keys - left, t);
        assert trees.Keys - (left - {t}) == trees.Keys - left + {t};
        left := left - {t};
      }
      AllDirsOf(s);
      assert trees.Keys - left == trees.Keys;
      trees := map[];
      if drag.Some? {
        fs := RemoveDir(fs, drag.value.dir);
        drag := None;
      }
    }
  }

  /** The directories of some of the folders. */
  ghost function DirsOf(s: State, ts: set<nat>): set<Path>
    requires ts <= s.trees.Keys
  {
    (set t | t in ts :: s.trees[t].root) + (set t | t in ts && s.trees[t].staging.Some? :: s.trees[t].staging.value)
  }

  lemma NoDirsOf(s: State)
    ensures DirsOf(s, {}) == {}
  {
  }

  lemma DirsOfMore(s: State, ts: set<nat>, t: nat)
    requires ts <= s.trees.Keys && t in s.trees
    ensures DirsOf(s, ts + {t})
         == DirsOf(s, ts) + {s.trees[t].root} + if s.trees[t].staging.Some? then {s.trees[t].staging.value} else {}
  {
  }

  lemma AllDirsOf(s: State)
    ensures DirsOf(s, s.trees.Keys) == TreeDirs(s)
  {
  }

  ghost predicate InFolders(s: State, ts: set<nat>, id: nat) {
    exists t :: t in ts && t in s.trees && id in s.trees[t].outstanding
  }

  lemma DropFolder(s: State, inside: set<nat>, left: set<nat>, t: nat)
    requires t in left && left <= inside && t in s.trees
    ensures forall id :: InFolders(s, inside - (left - {t}), id) <==>
              InFolders(s, inside - left, id) || id in s.trees[t].outstanding
  {
    assert inside - (left - {t}) == inside - left + {t};
  }

  /** Dropping more files after some. */
  lemma DropMore(s: State, gone: set<nat>, ids: set<nat>)
    ensures s.recv - gone - ids == s.recv - (gone + ids)
    ensures forall r: State | r.recv == s.recv - gone ::
              RemoveFiles(RemoveFiles(s.fs, PartsOf(s, gone)), PartsOf(r, ids))
                  == RemoveFiles(s.fs, PartsOf(s, gone + ids))
  {
    forall r: State | r.recv == s.recv - gone
      ensures RemoveFiles(RemoveFiles(s.fs, PartsOf(s, gone)), PartsOf(r, ids))
              == RemoveFiles(s.fs, PartsOf(s, gone + ids))
    {
      assert PartsOf(s, gone + ids) == PartsOf(s, gone) + PartsOf(r, ids);
    }
  }

  lemma DropKnown(s: State, a: set<nat>, b: set<nat>)
    requires forall id :: id in s.recv ==> (id in a <==> id in b)
    ensures s.recv - a == s.recv - b && PartsOf(s, a) == PartsOf(s, b)
  {
  }

  lemma RemoveNoDirs(fs: Fs)
    ensures RemoveDirs(fs, {}) == fs
  {
  }

  /** Removing directories one after the other removes them all, in any order. */
  lemma RemoveDirsStep(fs: Fs, gone: set<Path>, root: Path)
    ensures RemoveDir(RemoveDirs(fs, gone), root) == RemoveDirs(fs, gone + {root})
  {
    var a, b := RemoveDir(RemoveDirs(fs, gone), root), RemoveDirs(fs, gone + {root});
    forall p | p in fs ensures p in a <==> p in b {
      if root <= p && root in fs && fs[root].Dir? && root !in RemoveDirs(fs, gone) {
        var r :| r in gone && r <= root && r in fs && fs[r].Dir?;
        assert r <= p;
      }
    }
  }
}
