/** What the receiving side of one connection does with each message, as
    functions on its state. The class in Inbox.dfy is proved to compute them. */
module Receiving {
  import opened Basics
  import opened Disk
  import Names

  const CHUNK_SIZE := 262144
  const MAX_TREE_ENTRIES := 1000000

  datatype Reason =
    | IdInUse | NoDrag | BadName | BadPath | CannotCreate | NoTree | TooManyEntries | NotReceived
    | TooLarge | OutOfOrder | WriteFailed | Mismatch | Incomplete | CannotRename
    | FromPeer(text: string) | TreeFailed(cause: Reason) | InFile(name: string, cause: Reason)

  datatype Message =
    | FileOffer(id: nat, name: string, size: nat)
    | DragBegin(drag: nat, count: nat)
    | DragOffer(drag: nat, id: nat, name: string, size: nat)
    | DragDrop(drag: nat)
    | DragCancel(drag: nat)
    | TreeOffer(tree: nat, name: string, files: nat, bytes: nat, within: Option<nat>)
    | TreeDir(tree: nat, rel: string)
    | TreeFile(tree: nat, id: nat, rel: string, size: nat)
    | TreeEnd(tree: nat, error: Option<string>)
    | FileChunk(id: nat, offset: nat, data: Bytes)
    | FileDone(id: nat, digest: Digest)
    | FileCancel(id: nat, why: Reason)

  datatype Reply = Accept(id: nat) | Reject(id: nat, why: Reason) | Abort(id: nat, why: Reason)

  /** `RecvTransfer`. `hashed` is what the hasher was fed, `written` what the
      open temporary file received. */
  datatype Recv = Recv(name: string, size: nat, received: nat, part: Path, final: Path,
                       hashed: Bytes, written: Bytes, drag: Option<nat>, tree: Option<nat>)

  /** A file of a folder that passed verification. */
  datatype Verified = Verified(id: nat, size: nat)

  /** `IncomingTree`. `counted`, `offered`, `verified` and `made` are history: no
      branch reads them. They record whether the folder's drag counted it, which
      file ids were offered, which files verified and which directories exist. */
  datatype Tree = Tree(name: string, root: Path, staging: Option<Path>, drag: Option<nat>, files: nat, total: nat,
                       doneBytes: nat, outstanding: set<nat>, entries: nat, ended: bool, failed: Option<Reason>,
                       counted: bool, offered: seq<nat>, verified: seq<Verified>, dirs: seq<string>, made: seq<string>)
  {
    predicate Settled() { ended && outstanding == {} }

    /** keeps the first reason */
    function Fail(why: Reason): Tree {
      if failed.None? then this.(failed := Some(why)) else this
    }
  }

  /** `StagedItem`; `record` is history: the folder as it was when it finished. */
  datatype Staged = Staged(id: nat, name: string, folder: bool, size: nat, path: Path, record: Option<Tree>)

  /** `IncomingDrag` */
  datatype Drag = Drag(drag: nat, dir: Path, expected: nat, offered: nat, outstanding: set<nat>,
                       done: seq<Staged>, dropRequested: bool)
  {
    predicate Settled() { offered >= expected && outstanding == {} }
  }

  /** An item that reached its final place; `record` as in `Staged`. */
  datatype Placed = Placed(id: nat, folder: bool, path: Path, record: Option<Tree>)

  datatype State = State(fs: Fs, fileDir: Path, desktop: Option<Path>, recv: map<nat, Recv>, trees: map<nat, Tree>,
                         drag: Option<Drag>, replies: seq<Reply>, placed: seq<Placed>)
  {
    predicate DragIs(d: Option<nat>) { d.Some? && drag.Some? && drag.value.drag == d.value }

    function Say(r: Reply): State { this.(replies := replies + [r]) }

    function WithTree(id: nat, t: Tree): State { this.(trees := trees[id := t]) }

    function WithDrag(d: Drag): State { this.(drag := Some(d)) }

    function DropDir(): Path { if desktop.Some? then desktop.value else fileDir }
  }

  function TreeStagingName(tree: nat): string { ".vylo-tree-" + Decimal(tree) }

  function DragStagingName(drag: nat): string { ".vylo-drag-" + Decimal(drag) }

  function OrElse(fs: Option<Fs>, before: Fs): Fs { if fs.Some? then fs.value else before }

  /* ---- drags ---- */

  /** Move the staged items into `dest` one by one; an item that cannot be moved is skipped. */
  function PlaceAll(fs: Fs, items: seq<Staged>, dest: Path, env: Env): (Fs, seq<Placed>) {
    if items == [] then (fs, [])
    else
      var (before, placed) := PlaceAll(fs, items[..|items| - 1], dest, env);
      var item := items[|items| - 1];
      var target := if item.folder then FreeDirPath(before, dest, item.name) else FreeFilePath(before, dest, item.name);
      var moved := MovePath(before, item.path, target, env);
      if moved.Some? then (moved.value, placed + [Placed(item.id, item.folder, target, item.record)])
      else (before, placed)
  }

  /** `try_finalize_drag` */
  function FinalizeDrag(s: State, env: Env): (r: State)
    ensures r.recv == s.recv && r.trees == s.trees && r.replies == s.replies
    ensures r == s || (s.drag.Some? && s.drag.value.dropRequested && s.drag.value.Settled() && r.drag == None)
    ensures s.drag.Some? && s.drag.value.dropRequested && s.drag.value.Settled() ==> r.drag == None
  {
    if s.drag.None? || !s.drag.value.dropRequested || !s.drag.value.Settled() then s
    else
      var d, dest := s.drag.value, s.DropDir();
      var (fs, placed) := PlaceAll(OrElse(MkdirAll(s.fs, dest, env), s.fs), d.done, dest, env);
      s.(drag := None, fs := RemoveDir(fs, d.dir), placed := s.placed + placed)
  }

  /** The files `discard_drag` throws away. */
  function Doomed(s: State, d: Drag): set<nat> {
    set id | id in s.recv
      && (id in d.outstanding || exists t ::
            t in s.trees && s.trees[t].drag == Some(d.drag) && id in s.trees[t].outstanding)
  }

  function PartsOf(s: State, ids: set<nat>): set<Path> {
    set id | id in ids && id in s.recv :: s.recv[id].part
  }

  /** `discard_drag`, for a drag already taken out of the state */
  function DiscardDrag(s: State, d: Drag): (r: State)
    ensures r.drag == s.drag && r.replies == s.replies && r.placed == s.placed
  {
    s.(recv := s.recv - Doomed(s, d),
       trees := map t | t in s.trees && s.trees[t].drag != Some(d.drag) :: s.trees[t],
       fs := RemoveDir(RemoveFiles(s.fs, PartsOf(s, Doomed(s, d))), d.dir))
  }

  function BeginDrag(s: State, drag: nat, count: nat, env: Env): State {
    var s1 := if s.drag.Some? then DiscardDrag(s.(drag := None), s.drag.value) else s;
    var dir := s1.fileDir + [DragStagingName(drag)];
    var fs := MkdirAll(s1.fs, dir, env);
    if fs.None? then s1
    else s1.(fs := fs.value, drag := Some(Drag(drag, dir, count, 0, {}, [], false)))
  }

  /* ---- offers ---- */

  /** `begin_recv`: the file system afterwards, and the transfer if it started */
  function BeginRecv(fs: Fs, dir: Path, id: nat, offered: string, size: nat, drag: Option<nat>, tree: Option<nat>,
                     env: Env)
    : (Fs, Option<Recv>)
  {
    var name := Names.Sanitize(offered);
    if name.None? then (fs, None)
    else
      var fs1 := MkdirAll(fs, dir, env);
      if fs1.None? then (fs, None)
      else
        var final := FreeFilePath(fs1.value, dir, name.value);
        var part := FreeFilePath(fs1.value, dir, final[|final| - 1] + ".vylopart");
        var fs2 := CreatePart(fs1.value, part, id, env);
        if fs2.None? then (fs1.value, None)
        else (fs2.value, Some(Recv(name.value, size, 0, part, final, [], [], drag, tree)))
  }

  /** `accept_offer`: the state afterwards and whether the transfer is registered */
  function AcceptOffer(s: State, dir: Path, id: nat, name: string, size: nat, drag: Option<nat>, tree: Option<nat>,
                       env: Env)
    : (r: (State, bool))
    ensures r.0.trees == s.trees && r.0.drag == s.drag && r.0.placed == s.placed
    ensures r.1 ==> id !in s.recv && id in r.0.recv && r.0.recv == s.recv[id := r.0.recv[id]]
    ensures r.1 ==> r.0.recv[id].drag == drag && r.0.recv[id].tree == tree
    ensures !r.1 ==> r.0.recv == s.recv
  {
    if id in s.recv then (s.Say(Reject(id, IdInUse)), false)
    else
      var (fs, transfer) := BeginRecv(s.fs, dir, id, name, size, drag, tree, env);
      if transfer.Some? then (s.(fs := fs, recv := s.recv[id := transfer.value]).Say(Accept(id)), true)
      else (s.(fs := fs).Say(Reject(id, if Names.Sanitize(name).None? then BadName else CannotCreate)), false)
  }

  function OfferInDrag(s: State, drag: nat, id: nat, name: string, size: nat, env: Env): (r: State)
    ensures r.trees == s.trees
    ensures id in s.recv || id !in r.recv ==> r.recv == s.recv
    ensures id !in s.recv && id in r.recv ==>
              && s.DragIs(Some(drag))
              && r.recv == s.recv[id := r.recv[id]] && r.recv[id].drag == Some(drag) && r.recv[id].tree == None
              && r.drag == Some(s.drag.value.(offered := s.drag.value.offered + 1,
                                              outstanding := s.drag.value.outstanding + {id}))
              && r.placed == s.placed
    ensures (id in s.recv || id !in r.recv) && s.DragIs(Some(drag)) && r.drag.Some? ==>
              r.drag == Some(s.drag.value.(offered := s.drag.value.offered + 1)) && r.placed == s.placed
    ensures !s.DragIs(Some(drag)) ==> r.drag == s.drag && r.placed == s.placed
  {
    if !s.DragIs(Some(drag)) then s.Say(Reject(id, NoDrag))
    else
      var d := s.drag.value.(offered := s.drag.value.offered + 1);
      var (s1, accepted) := AcceptOffer(s.WithDrag(d), d.dir, id, name, size, Some(drag), None, env);
      if accepted then s1.WithDrag(d.(outstanding := d.outstanding + {id})) else FinalizeDrag(s1, env)
  }

  /** A folder nothing was offered to yet. */
  predicate IsNewTree(t: Tree) {
    !t.ended && t.outstanding == {} && t.doneBytes == 0 && t.offered == [] && t.verified == [] && t.dirs == []
        && t.made == []
  }

  function RefusedTree(name: string, files: nat, bytes: nat, drag: Option<nat>, counted: bool, why: Reason): Tree {
    Tree(name, [], None, drag, files, bytes, 0, {}, 0, false, Some(why), counted, [], [], [], [])
  }

  /** `tree_offer` */
  function OfferTree(s: State, tree: nat, name: string, files: nat, bytes: nat, drag: Option<nat>, env: Env)
    : (r: State)
    ensures r.recv == s.recv && r.placed == s.placed && r.replies == s.replies
    ensures tree in s.trees ==> r == s
    ensures tree !in s.trees ==>
              && tree in r.trees && r.trees == s.trees[tree := r.trees[tree]] && IsNewTree(r.trees[tree])
              && r.trees[tree].drag == drag && r.trees[tree].counted == s.DragIs(drag)
              && (drag.Some? && !s.DragIs(drag) ==> r.trees[tree].failed.Some?)
              && r.drag == if s.DragIs(drag)
                 then Some(s.drag.value.(offered := s.drag.value.offered + 1,
                                         outstanding := s.drag.value.outstanding + {tree}))
                 else s.drag
  {
    if tree in s.trees then s
    else if drag.Some? && !s.DragIs(drag) then
      s.WithTree(tree, RefusedTree(name, files, bytes, drag, false, NoDrag))
    else
      var counted := drag.Some?;
      var s1 := if counted then
        var d := s.drag.value;
        s.WithDrag(d.(offered := d.offered + 1, outstanding := d.outstanding + {tree}))
      else s;
      var parent := if counted then s1.drag.value.dir else s1.fileDir + [TreeStagingName(tree)];
      var staging := if counted then None else Some(parent);
      var safe := Names.Sanitize(name);
      if safe.None? then s1.WithTree(tree, RefusedTree(name, files, bytes, drag, counted, BadName))
      else RootTree(s1, tree, safe.value, files, bytes, drag, counted, parent, staging, env)
  }

  /** The end of `tree_offer`: make the folder's root below `parent`. */
  function RootTree(s: State, tree: nat, name: string, files: nat, bytes: nat, drag: Option<nat>, counted: bool,
                    parent: Path, staging: Option<Path>, env: Env): (r: State)
    requires tree !in s.trees
    ensures r == s.(fs := r.fs, trees := r.trees) && tree in r.trees && r.trees == s.trees[tree := r.trees[tree]]
    ensures IsNewTree(r.trees[tree]) && r.trees[tree].drag == drag && r.trees[tree].counted == counted
  {
    var fs := MkdirAll(s.fs, parent, env);
    if fs.None? then s.WithTree(tree, RefusedTree(name, files, bytes, drag, counted, CannotCreate))
    else
      var root := FreeDirPath(fs.value, parent, name);
      var t := Tree(name, root, staging, drag, files, bytes, 0, {}, 0, false, None, counted, [], [], [], []);
      var rooted := MkdirAll(fs.value, root, env);
      if rooted.Some? then s.(fs := rooted.value).WithTree(tree, t)
      else s.(fs := fs.value).WithTree(tree, t.Fail(CannotCreate))
  }

  function MakeDir(s: State, tree: nat, rel: string, env: Env): (r: State)
    ensures r == s.(fs := r.fs, trees := r.trees)
    ensures tree !in s.trees || s.trees[tree].failed.Some? ==> r == s
    ensures tree in s.trees && s.trees[tree].failed.None? ==>
              && tree in r.trees && r.trees == s.trees[tree := r.trees[tree]]
              && var t, t' := s.trees[tree], r.trees[tree];
              && t' == t.(entries := t.entries + 1, dirs := t.dirs + [rel], failed := t'.failed, made := t'.made)
              && (t'.failed.None? ==> t'.made == t.made + [rel])
  {
    if tree !in s.trees || s.trees[tree].failed.Some? then s
    else
      var t := s.trees[tree].(entries := s.trees[tree].entries + 1, dirs := s.trees[tree].dirs + [rel]);
      if t.entries > MAX_TREE_ENTRIES then s.WithTree(tree, t.Fail(TooManyEntries))
      else
        var path := Names.SanitizeRel(rel);
        if path.None? then s.WithTree(tree, t.Fail(BadPath))
        else
          var fs := MkdirAll(s.fs, t.root + path.value, env);
          if fs.None? then s.WithTree(tree, t.Fail(CannotCreate))
          else s.(fs := fs.value).WithTree(tree, t.(made := t.made + [rel]))
  }

  /** `tree_file` */
  function OfferInTree(s: State, tree: nat, id: nat, rel: string, size: nat, env: Env): State {
    if tree !in s.trees then s.Say(Reject(id, NoTree))
    else if s.trees[tree].failed.Some? then s.Say(Reject(id, TreeFailed(s.trees[tree].failed.value)))
    else
      var t := s.trees[tree].(entries := s.trees[tree].entries + 1, offered := s.trees[tree].offered + [id]);
      if t.entries > MAX_TREE_ENTRIES then s.WithTree(tree, t.Fail(TooManyEntries)).Say(Reject(id, TooManyEntries))
      else
        var path := Names.SanitizeRel(rel);
        if path.None? || path.value == [] then s.WithTree(tree, t.Fail(BadPath)).Say(Reject(id, BadPath))
        else OpenInTree(s, tree, t, id, path.value, size, env)
  }

  /** The end of `tree_file`: open the file at `path` below the folder's root. */
  function OpenInTree(s: State, tree: nat, t: Tree, id: nat, path: Path, size: nat, env: Env): (r: State)
    requires tree in s.trees && t.failed.None? && path != []
    ensures r.drag == s.drag && r.placed == s.placed && tree in r.trees && r.trees == s.trees[tree := r.trees[tree]]
    ensures r.trees[tree] == t.(failed := r.trees[tree].failed, outstanding := r.trees[tree].outstanding)
    ensures r.trees[tree].failed.None? ==>
              && r.trees[tree].outstanding == t.outstanding + {id}
              && id !in s.recv && id in r.recv && r.recv == s.recv[id := r.recv[id]]
              && r.recv[id].drag == t.drag && r.recv[id].tree == Some(tree)
    ensures r.trees[tree].failed.Some? ==> r.recv == s.recv && r.trees[tree].outstanding == t.outstanding
  {
    var k := |path| - 1;
    var (s1, accepted) := AcceptOffer(s.WithTree(tree, t), t.root + path[..k], id, path[k], size, t.drag, Some(tree),
                                      env);
    if accepted then s1.WithTree(tree, t.(outstanding := t.outstanding + {id}))
    else s1.WithTree(tree, t.Fail(NotReceived))
  }

  lemma OfferInTreeEffect(s: State, tree: nat, id: nat, rel: string, size: nat, env: Env)
    ensures var r := OfferInTree(s, tree, id, rel, size, env); r.drag == s.drag && r.placed == s.placed
    ensures var r := OfferInTree(s, tree, id, rel, size, env);
            tree !in s.trees || s.trees[tree].failed.Some? ==> r == s.(replies := r.replies)
    ensures var r := OfferInTree(s, tree, id, rel, size, env);
            tree in s.trees && s.trees[tree].failed.None? ==>
              && tree in r.trees && r.trees == s.trees[tree := r.trees[tree]]
              && var t, t' := s.trees[tree], r.trees[tree];
              && t' == t.(entries := t.entries + 1, offered := t.offered + [id], failed := t'.failed,
                          outstanding := t'.outstanding)
              && (id !in s.recv && id in r.recv <==> t'.failed.None?)
              && t'.outstanding == (if t'.failed.None? then t.outstanding + {id} else t.outstanding)
              && (t'.failed.Some? ==> r.recv == s.recv)
              && (t'.failed.None? ==>
                    r.recv == s.recv[id := r.recv[id]] && r.recv[id].drag == t.drag && r.recv[id].tree == Some(tree))
  {
    hide OpenInTree, Names.SanitizeRel;
  }

  /* ---- settling ---- */

  /** `try_finalize_tree` */
  function FinalizeTree(s: State, tree: nat, env: Env): (r: State)
    ensures r.recv == s.recv && r.replies == s.replies
    ensures tree !in s.trees || !s.trees[tree].Settled() ==> r == s
    ensures tree in s.trees && s.trees[tree].Settled() ==> r.trees == s.trees - {tree}
    ensures r.drag.Some? ==>
              && s.drag.Some?
              && var d, d' := s.drag.value, r.drag.value;
              && d' == d.(outstanding := d'.outstanding, done := d'.done)
              && d'.outstanding == (if tree in s.trees && s.trees[tree].Settled() && s.DragIs(s.trees[tree].drag)
                                    then d.outstanding - {tree} else d.outstanding)
              && d.done <= d'.done
  {
    if tree !in s.trees || !s.trees[tree].Settled() then s
    else
      var t := s.trees[tree];
      var s1 := s.(trees := s.trees - {tree});
      if t.failed.Some? then
        var fs1 := if t.root != [] then RemoveDir(s1.fs, t.root) else s1.fs;
        var fs2 := if t.staging.Some? then RemoveDir(fs1, t.staging.value) else fs1;
        SettleInDrag(s1.(fs := fs2), t.drag, tree, None, env)
      else if t.drag.Some? then
        if s1.DragIs(t.drag)
        then SettleInDrag(s1, t.drag, tree, Some(Staged(tree, t.name, true, t.total, t.root, Some(t))), env)
        else s1.(fs := RemoveDir(s1.fs, t.root))
      else
        var fs1 := OrElse(MkdirAll(s1.fs, s1.fileDir, env), s1.fs);
        var dest := FreeDirPath(fs1, s1.fileDir, t.name);
        var moved := MovePath(fs1, t.root, dest, env);
        var fs2 := OrElse(moved, fs1);
        var fs3 := if t.staging.Some? then RemoveDir(fs2, t.staging.value) else fs2;
        if moved.Some? then s1.(fs := fs3, placed := s1.placed + [Placed(tree, true, dest, Some(t))])
        else s1.(fs := RemoveDir(fs3, t.root))
  }

  /** An item of drag `drag` settled, successfully if `item` is given. */
  function SettleInDrag(s: State, drag: Option<nat>, id: nat, item: Option<Staged>, env: Env): (r: State)
    ensures r.recv == s.recv && r.trees == s.trees && r.replies == s.replies
    ensures !s.DragIs(drag) ==> r == s
    ensures r.drag.Some? && s.DragIs(drag) ==>
              r == s.WithDrag(s.drag.value.(outstanding := s.drag.value.outstanding - {id},
                                            done := if item.Some? then s.drag.value.done + [item.value]
                                                    else s.drag.value.done))
  {
    if !s.DragIs(drag) then s
    else
      var d := s.drag.value.(outstanding := s.drag.value.outstanding - {id});
      FinalizeDrag(s.WithDrag(if item.Some? then d.(done := d.done + [item.value]) else d), env)
  }

  /** `settle_failure`, for a transfer already taken out of the state */
  function SettleFailure(s: State, t: Recv, id: nat, why: Reason, env: Env): State {
    match t.tree
    case Some(tree) =>
      if tree !in s.trees then s
      else
        var tr := s.trees[tree].(outstanding := s.trees[tree].outstanding - {id}).Fail(InFile(t.name, why));
        FinalizeTree(s.WithTree(tree, tr), tree, env)
    case None => SettleInDrag(s, t.drag, id, None, env)
  }

  /** Remove transfer `id` and its temporary file. */
  function Drop(s: State, id: nat): State
    requires id in s.recv
  {
    s.(recv := s.recv - {id}, fs := RemoveFile(s.fs, s.recv[id].part))
  }

  /** `chunk` */
  function Chunk(s: State, id: nat, offset: nat, data: Bytes, env: Env): State {
    if id !in s.recv then s
    else
      var t := s.recv[id];
      var error :=
        if |data| > CHUNK_SIZE || t.received + |data| > t.size then Some(TooLarge)
        else if offset != t.received then Some(OutOfOrder)
        else if !env.lucky(OpWrite(t.part)) then Some(WriteFailed)
        else None;
      if error.Some? then
        SettleFailure(Drop(s, id).Say(Abort(id, error.value)), t, id, error.value, env)
      else
        s.(recv := s.recv[id := t.(received := t.received + |data|, hashed := t.hashed + data,
                                   written := t.written + data)])
  }

  /** `finish_recv`: the file system afterwards, and what went wrong if anything did */
  function FinishRecv(fs: Fs, id: nat, t: Recv, digest: Digest, env: Env): (Fs, Option<Reason>) {
    if env.sha(t.hashed) != digest then (RemoveFile(fs, t.part), Some(Mismatch))
    else if t.received != t.size then (RemoveFile(fs, t.part), Some(Incomplete))
    else
      var renamed := RenameFile(fs, t.part, t.final, id, t.written, env);
      if renamed.Some? then (renamed.value, None) else (fs, Some(CannotRename))
  }

  /** `done` */
  function Done(s: State, id: nat, digest: Digest, env: Env): State {
    if id !in s.recv then s
    else
      var t := s.recv[id];
      var (fs, error) := FinishRecv(s.fs, id, t, digest, env);
      var s1 := s.(recv := s.recv - {id}, fs := fs);
      match t.tree
      case Some(tree) =>
        if tree !in s1.trees then s1
        else
          var tr := s1.trees[tree].(outstanding := s1.trees[tree].outstanding - {id});
          var tr1 := if error.Some? then tr.Fail(InFile(t.name, error.value))
                     else tr.(doneBytes := tr.doneBytes + t.size, verified := tr.verified + [Verified(id, t.size)]);
          FinalizeTree(s1.WithTree(tree, tr1), tree, env)
      case None =>
        var s2 := if error.None? && t.drag.None? then s1.(placed := s1.placed + [Placed(id, false, t.final, None)])
                  else s1;
        SettleInDrag(s2, t.drag, id, if error.None? then Some(Staged(id, t.name, false, t.size, t.final, None))
                                     else None, env)
  }

  function Cancelled(s: State, id: nat, why: Reason, env: Env): State {
    if id !in s.recv then s else SettleFailure(Drop(s, id), s.recv[id], id, why, env)
  }

  function EndTree(s: State, tree: nat, error: Option<string>, env: Env): State {
    if tree !in s.trees then s
    else
      var t := s.trees[tree].(ended := true);
      FinalizeTree(s.WithTree(tree, if error.Some? then t.Fail(FromPeer(error.value)) else t), tree, env)
  }

  /** `handle` */
  function Handle(s: State, m: Message, env: Env): State {
    match m
    case FileOffer(id, name, size) => AcceptOffer(s, s.fileDir, id, name, size, None, None, env).0
    case DragBegin(drag, count) => BeginDrag(s, drag, count, env)
    case DragOffer(drag, id, name, size) => OfferInDrag(s, drag, id, name, size, env)
    case DragDrop(drag) =>
      if s.DragIs(Some(drag)) then FinalizeDrag(s.WithDrag(s.drag.value.(dropRequested := true)), env) else s
    case DragCancel(drag) => if s.DragIs(Some(drag)) then DiscardDrag(s.(drag := None), s.drag.value) else s
    case TreeOffer(tree, name, files, bytes, within) => OfferTree(s, tree, name, files, bytes, within, env)
    case TreeDir(tree, rel) => MakeDir(s, tree, rel, env)
    case TreeFile(tree, id, rel, size) => OfferInTree(s, tree, id, rel, size, env)
    case TreeEnd(tree, error) => EndTree(s, tree, error, env)
    case FileChunk(id, offset, data) => Chunk(s, id, offset, data, env)
    case FileDone(id, digest) => Done(s, id, digest, env)
    case FileCancel(id, why) => Cancelled(s, id, why, env)
  }

  /** The roots and staging directories `close` removes. */
  function TreeDirs(s: State): set<Path> {
    (set t | t in s.trees :: s.trees[t].root)
    + (set t | t in s.trees && s.trees[t].staging.Some? :: s.trees[t].staging.value)
  }

  function RemoveDirs(fs: Fs, roots: set<Path>): Fs {
    map p | p in fs && !exists r :: r in roots && r <= p && r in fs && fs[r].Dir? :: fs[p]
  }

  /** `close` */
  function Close(s: State): State {
    var fs1 := RemoveDirs(RemoveFiles(s.fs, PartsOf(s, s.recv.Keys)), TreeDirs(s));
    s.(recv := map[], trees := map[], drag := None,
       fs := if s.drag.Some? then RemoveDir(fs1, s.drag.value.dir) else fs1)
  }
}
