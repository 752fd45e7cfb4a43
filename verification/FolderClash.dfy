/** Exactly when a folder arrives intact: when no file of it is opened or completed while
    another one's temporary file has its place; and for which folders that is so
    however the files interleave. */
module FolderClash {
  import opened Basics
  import opened Disk
  import opened Receiving
  import opened Ownership
  import opened Walk
  import opened Staging
  import opened Cleanup
  import opened FolderIntact
  import Senders
  import Names

  /** What is no directory at and below `root`, by its path from there. */
  ghost function FilesBelow(fs: Fs, root: Path): set<Path> {
    set q | q in fs && root <= q && !fs[q].Dir? :: q[|root|..]
  }

  lemma IsBelow(fs: Fs, root: Path, p: Path)
    ensures p in FilesBelow(fs, root) <==> root + p in fs && !fs[root + p].Dir?
  {
    assert (root + p)[|root|..] == p && root <= root + p;
    forall q | q in fs && root <= q ensures q == root + q[|root|..] {}
  }

  lemma BelowSubset(fs: Fs, r: Fs, root: Path)
    requires forall q :: q in r && root <= q && !r[q].Dir? ==> q in fs && !fs[q].Dir?
    ensures FilesBelow(r, root) <= FilesBelow(fs, root) && |FilesBelow(r, root)| <= |FilesBelow(fs, root)|
  {
    forall p | p in FilesBelow(r, root) ensures p in FilesBelow(fs, root) {
      IsBelow(r, root, p);
      IsBelow(fs, root, p);
      assert root <= root + p;
    }
    PathsSubset(FilesBelow(r, root), FilesBelow(fs, root));
  }

  lemma PathsSubset(a: set<Path>, b: set<Path>)
    requires a <= b
    ensures |a| <= |b|
  {
    assert b == a + (b - a);
  }

  lemma BelowOneMore(fs: Fs, r: Fs, root: Path, p: Path)
    requires root <= p
    requires forall q :: q in r && root <= q && q != p && !r[q].Dir? ==> q in fs && !fs[q].Dir?
    ensures |FilesBelow(r, root)| <= |FilesBelow(fs, root)| + 1
  {
    var more := FilesBelow(fs, root) + {p[|root|..]};
    assert p == root + p[|root|..];
    forall x | x in FilesBelow(r, root) ensures x in more {
      IsBelow(r, root, x);
      IsBelow(fs, root, x);
      assert root <= root + x;
    }
    PathsSubset(FilesBelow(r, root), more);
  }

  /* ---- the folder's transfers ---- */

  predicate OurFile(c: Parcel, t: Recv, root: Path) {
    t.tree == Some(c.tree) && t.drag == None && root <= t.part && root <= t.final
  }

  /** The folder offered in `s` is being received at `root`, well or not, and was not ended. */
  ghost predicate Ours(c: Parcel, s: State, r: State, root: Path) {
    && WellFormed(r.fs) && root != [] && c.tree in r.trees && r.placed == s.placed
    && var t := r.trees[c.tree];
    && t.root == root && !t.ended && t.drag == None
    && forall id :: id in c.ids && id in r.recv ==> OurFile(c, r.recv[id], root)
  }

  predicate Failed(c: Parcel, r: State) { c.tree in r.trees && r.trees[c.tree].failed.Some? }

  /** What a message does: whatever went wrong stays wrong, and only an offer adds a file. */
  ghost predicate Goes(c: Parcel, s: State, r: State, next: State, root: Path, more: nat) {
    && Ours(c, s, next, root) && (Failed(c, r) ==> Failed(c, next))
    && |FilesBelow(next.fs, root)| <= |FilesBelow(r.fs, root)| + more
  }

  lemma OfferGoes(c: Parcel, s: State, r: State, root: Path, id: nat, rel: string, size: nat, env: Env)
    requires Ours(c, s, r, root)
    ensures Goes(c, s, r, OfferInTree(r, c.tree, id, rel, size, env), root, 1)
  {
    hide OpenInTree, Names.SanitizeRel, WellFormed, FilesBelow;
    if r.trees[c.tree].failed.None? && Names.SanitizeRel(rel).Some? && Names.SanitizeRel(rel).value != [] {
      var t := r.trees[c.tree].(entries := r.trees[c.tree].entries + 1, offered := r.trees[c.tree].offered + [id]);
      OpenGoes(c, s, r, root, t, id, Names.SanitizeRel(rel).value, size, env);
    }
  }

  lemma OpenGoes(c: Parcel, s: State, r: State, root: Path, t: Tree, id: nat, path: Path, size: nat, env: Env)
    requires Ours(c, s, r, root) && t.failed.None? && path != [] && t.root == root && !t.ended && t.drag == None
    ensures Goes(c, s, r, OpenInTree(r, c.tree, t, id, path, size, env), root, 1) || Failed(c, r)
  {
    hide BeginRecv, WellFormed, FilesBelow, Names.Sanitize, Names.IsClean;
    var k := |path| - 1;
    var dir := root + path[..k];
    BeginRecvEffect(r.fs, dir, id, path[k], size, None, Some(c.tree), env);
    var (fs, transfer) := BeginRecv(r.fs, dir, id, path[k], size, None, Some(c.tree), env);
    assert root <= dir;
    BelowOneMore(r.fs, fs, root, if transfer.Some? then transfer.value.part else root);
  }

  /** A file of the folder failed: so did the folder. */
  lemma FailureGoes(c: Parcel, s: State, r: State, q: State, root: Path, id: nat, why: Reason, env: Env)
    requires Ours(c, s, r, root) && id in c.ids && id in r.recv && q == Drop(r, id).(replies := q.replies)
    ensures var next := SettleFailure(q, r.recv[id], id, why, env);
            Goes(c, s, r, next, root, 0) && Failed(c, next)
  {
    hide FilesBelow, WellFormed;
    RemoveFilesEffect(r.fs, {r.recv[id].part});
    BelowSubset(r.fs, q.fs, root);
  }

  lemma ChunkGoes(c: Parcel, s: State, r: State, root: Path, id: nat, offset: nat, data: Bytes, env: Env)
    requires Ours(c, s, r, root) && id in c.ids
    ensures var next := Receiving.Chunk(r, id, offset, data, env);
            && Goes(c, s, r, next, root, 0)
            && (Failed(c, next) || next.fs == r.fs)
            && (id in r.recv && !Failed(c, next) ==>
                  && id in next.recv && next.recv == r.recv[id := next.recv[id]]
                  && next.recv[id].part == r.recv[id].part && next.recv[id].final == r.recv[id].final)
  {
    hide FilesBelow, SettleFailure, RemoveFile, WellFormed;
    if id in r.recv {
      forall q: State, why | q == Drop(r, id).(replies := q.replies)
        ensures var next := SettleFailure(q, r.recv[id], id, why, env); Goes(c, s, r, next, root, 0) && Failed(c, next)
      {
        FailureGoes(c, s, r, q, root, id, why, env);
      }
    }
  }

  lemma DoneGoes(c: Parcel, s: State, r: State, root: Path, id: nat, digest: Digest, env: Env)
    requires Ours(c, s, r, root) && id in c.ids
    ensures var next := Done(r, id, digest, env);
            && Goes(c, s, r, next, root, 0)
            && (id in r.recv && !Failed(c, next) ==>
                  Some(next.fs) == RenameFile(r.fs, r.recv[id].part, r.recv[id].final, id, r.recv[id].written, env))
  {
    hide FilesBelow, FinishRecv, RenameFile, WellFormed;
    if id in r.recv {
      var t := r.recv[id];
      FinishGoes(r, root, id, t, digest, env);
      var (fs, error) := FinishRecv(r.fs, id, t, digest, env);
      var tr := r.trees[c.tree].(outstanding := r.trees[c.tree].outstanding - {id});
      if error.Some? { assert tr.Fail(InFile(t.name, error.value)).failed.Some?; }
    }
  }

  lemma FinishGoes(r: State, root: Path, id: nat, t: Recv, digest: Digest, env: Env)
    requires WellFormed(r.fs) && root <= t.part && root <= t.final
    ensures var (fs, error) := FinishRecv(r.fs, id, t, digest, env);
            && WellFormed(fs) && |FilesBelow(fs, root)| <= |FilesBelow(r.fs, root)|
            && (error.None? ==> Some(fs) == RenameFile(r.fs, t.part, t.final, id, t.written, env))
  {
    hide FilesBelow, WellFormed, RenameFile;
    RemoveFilesEffect(r.fs, {t.part});
    BelowSubset(r.fs, RemoveFile(r.fs, t.part), root);
    if RenameFile(r.fs, t.part, t.final, id, t.written, env).Some? {
      RenameFileEffect(r.fs, t.part, t.final, id, t.written, env);
      RenameGoes(r.fs, root, t.part, t.final, id, t.written, env);
    }
  }

  /** A rename adds no file; onto another file, it takes one away. */
  lemma RenameGoes(fs: Fs, root: Path, src: Path, dst: Path, id: nat, content: Bytes, env: Env)
    requires root <= src && root <= dst && RenameFile(fs, src, dst, id, content, env).Some?
    ensures var r := RenameFile(fs, src, dst, id, content, env).value;
            && |FilesBelow(r, root)| <= |FilesBelow(fs, root)|
            && (src != dst && dst in fs ==> |FilesBelow(r, root)| < |FilesBelow(fs, root)|)
  {
    hide FilesBelow;
    var r := RenameFile(fs, src, dst, id, content, env).value;
    var all, a, b := FilesBelow(fs, root), src[|root|..], dst[|root|..];
    assert src == root + a && dst == root + b;
    IsBelow(fs, root, a);
    IsBelow(fs, root, b);
    forall x | x in FilesBelow(r, root) ensures x in all - {a} + {b} {
      IsBelow(r, root, x);
      IsBelow(fs, root, x);
      SamePrefix(root, x, a);
      SamePrefix(root, x, b);
    }
    PathsSubset(FilesBelow(r, root), all - {a} + {b});
    if src != dst && dst in fs { assert all - {a} + {b} == all - {a}; }
  }

  /* ---- a file too few ---- */

  /** The folder failed already, or there are fewer files than were offered. */
  ghost predicate Broken(c: Parcel, s: State, r: State, root: Path, prog: seq<Progress>) {
    Ours(c, s, r, root) && (Failed(c, r) || |FilesBelow(r.fs, root)| < |Opened(prog)|)
  }

  lemma OpenedAfter(c: Parcel, prog: seq<Progress>, m: Move)
    requires c.root.Folder? && |prog| == |c.L().files| == |c.ids| && CanMove(c, prog, m)
    ensures |Opened(Moved(c, prog, m))| == |Opened(prog)| + if m.Open? then 1 else 0
  {
    hide List;
    if m.Open? {
      assert Opened(Moved(c, prog, m)) == Opened(prog) + {m.file};
    } else {
      assert Opened(Moved(c, prog, m)) == Opened(prog);
    }
  }

  lemma MoveGoes(c: Parcel, s: State, r: State, root: Path, prog: seq<Progress>, m: Move, env: Env)
    requires c.root.Folder? && |prog| == |c.L().files| == |c.ids| && CanMove(c, prog, m) && Ours(c, s, r, root)
    ensures Goes(c, s, r, Handle(r, MessageOf(c, prog, m, env), env), root, if m.Open? then 1 else 0)
  {
    hide List, Ours, Goes, OfferInTree, Receiving.Chunk, Done, Text;
    var f, id := c.L().files[m.file], c.ids[m.file];
    match m
    case Open(_) => OfferGoes(c, s, r, root, id, Text(f.path), |f.content|, env);
    case Chunk(_, n) =>
      ChunkGoes(c, s, r, root, id, prog[m.file].sent, f.content[prog[m.file].sent..prog[m.file].sent + n], env);
    case Complete(_) => DoneGoes(c, s, r, root, id, env.sha(f.content), env);
  }

  lemma {:induction false} StaysBroken(c: Parcel, s: State, r: State, root: Path, prog: seq<Progress>,
                                       moves: seq<Move>, env: Env)
    requires c.root.Folder? && |prog| == |c.L().files| == |c.ids| && SendsAll(c, prog, moves)
             && Broken(c, s, r, root, prog)
    ensures exists done: seq<Progress> ::
              && |done| == |c.ids| && (forall i :: 0 <= i < |done| ==> done[i].Sent?)
              && Broken(c, s, Receive(c, r, prog, moves, env), root, done)
    decreases |moves|
  {
    hide List, Handle, Ours, FilesBelow, Opened;
    if moves != [] {
      var m := moves[0];
      MoveGoes(c, s, r, root, prog, m, env);
      OpenedAfter(c, prog, m);
      StaysBroken(c, s, Handle(r, MessageOf(c, prog, m, env), env), root, Moved(c, prog, m), moves[1..], env);
    }
  }

  /** The folder offered in `s` was placed, once, as the same tree. */
  ghost predicate ArrivedWhole(c: Parcel, s: State, r: State) {
    exists dest, t :: r.placed == s.placed + [Placed(c.tree, true, dest, Some(t))] && SameTree(r.fs, dest, c.root)
  }

  lemma {:induction false} AllDistinct(ps: seq<Path>, all: set<Path>)
    requires (forall i :: 0 <= i < |ps| ==> ps[i] in all) && forall i, j :: 0 <= i < j < |ps| ==> ps[i] != ps[j]
    ensures |ps| <= |all|
  {
    if ps != [] { AllDistinct(ps[..|ps| - 1], all - {ps[|ps| - 1]}); }
  }

  lemma PathBelow(c: Parcel, fs: Fs, dest: Path, i: nat)
    requires Good(c) && SameTree(fs, dest, c.root) && i < |c.ids|
    ensures c.root.Folder? && |c.L().files| == |c.ids| && c.L().files[i].path in FilesBelow(fs, dest)
  {
    hide Good, List, FilesBelow, FileAt, DirAt, Sendable;
    GoodFolder(c);
    FileFacts(c, i);
    IsBelow(fs, dest, c.L().files[i].path);
  }

  /** To arrive whole, the folder must not have failed and every file must be at its path. */
  lemma WholeNeedsAll(c: Parcel, s: State, r: State, root: Path, env: Env)
    requires Good(c) && Ours(c, s, r, root) && ArrivedWhole(c, s, EndTree(r, c.tree, None, env))
    ensures !Failed(c, r) && c.root.Folder? && |c.ids| == |c.L().files|
    ensures forall i :: 0 <= i < |c.ids| ==> c.L().files[i].path in FilesBelow(r.fs, root)
  {
    hide Good, SameTree, FilesBelow, FinalizeTree, List;
    GoodFolder(c);
    var t := r.trees[c.tree].(ended := true);
    var q, e := r.WithTree(c.tree, t), EndTree(r, c.tree, None, env);
    EndsAlone(q, c.tree, env);
    var dest, u :| e.placed == s.placed + [Placed(c.tree, true, dest, Some(u))] && SameTree(e.fs, dest, c.root);
    LastPlaced(s.placed, Placed(c.tree, true, dest, Some(u)));
    FewerPlaced(q, c.tree, env, dest);
    forall i | 0 <= i < |c.ids| ensures c.L().files[i].path in FilesBelow(r.fs, root) { PathBelow(c, e.fs, dest, i); }
  }

  lemma BrokenEnds(c: Parcel, s: State, r: State, root: Path, done: seq<Progress>, env: Env)
    requires Good(c) && |done| == |c.ids| && (forall i :: 0 <= i < |done| ==> done[i].Sent?)
             && Broken(c, s, r, root, done)
    ensures !ArrivedWhole(c, s, EndTree(r, c.tree, None, env))
  {
    hide Good, List, FilesBelow, ArrivedWhole;
    GoodFolder(c);
    if ArrivedWhole(c, s, EndTree(r, c.tree, None, env)) {
      WholeNeedsAll(c, s, r, root, env);
      var ps := seq(|c.ids|, i requires 0 <= i < |c.ids| => c.L().files[i].path);
      forall i, j | 0 <= i < j < |ps| ensures ps[i] != ps[j] { PathsDistinct(c, i, j); }
      AllDistinct(ps, FilesBelow(r.fs, root));
      OpenedAll(done);
    }
  }

  lemma LastPlaced(ps: seq<Placed>, p: Placed)
    ensures ps + [p] != ps && (ps + [p])[|ps|] == p
  {
  }

  lemma OpenedAll(done: seq<Progress>)
    requires forall i :: 0 <= i < |done| ==> done[i].Sent?
    ensures |Opened(done)| == |done|
  {
    assert Opened(done) == Indices(|done|);
  }

  /** A folder of its own is placed only by being moved. */
  lemma EndsAlone(q: State, tree: nat, env: Env)
    requires tree in q.trees && q.trees[tree].drag == None
    ensures q.trees[tree].failed.Some? ==> FinalizeTree(q, tree, env).placed == q.placed
  {
    hide MovePath, MkdirAll, FreeDirPath, RemoveDir;
  }

  lemma FewerPlaced(q: State, tree: nat, env: Env, dest: Path)
    requires tree in q.trees && q.trees[tree].drag == None && q.trees[tree].failed.None? && WellFormed(q.fs)
             && q.trees[tree].root != []
    requires var e := FinalizeTree(q, tree, env); |e.placed| == |q.placed| + 1 && e.placed[|q.placed|].path == dest
    ensures FilesBelow(FinalizeTree(q, tree, env).fs, dest) <= FilesBelow(q.fs, q.trees[tree].root)
  {
    hide MovePath, MkdirAll, FreeDirPath, RemoveDir, FilesBelow, WellFormed;
    var t := q.trees[tree];
    var fs1 := OrElse(MkdirAll(q.fs, q.fileDir, env), q.fs);
    if MkdirAll(q.fs, q.fileDir, env).Some? { MkdirAllEffect(q.fs, q.fileDir, env); }
    BelowSubset(q.fs, fs1, t.root);
    var to := FreeDirPath(fs1, q.fileDir, t.name);
    if MovePath(fs1, t.root, to, env).Some? {
      var moved := MovePath(fs1, t.root, to, env).value;
      MovedBelow(fs1, t.root, to, env);
      var left := if t.staging.Some? then RemoveDir(moved, t.staging.value) else moved;
      assert forall q :: q in left ==> q in moved && left[q] == moved[q] by { StagingGone(moved, t.staging); }
      BelowSubset(moved, left, to);
      assert FinalizeTree(q, tree, env).fs == left && to == dest;
    }
  }

  lemma StagingGone(fs: Fs, staging: Option<Path>)
    ensures var left := if staging.Some? then RemoveDir(fs, staging.value) else fs;
            forall q :: q in left ==> q in fs && left[q] == fs[q]
  {
  }

  lemma MovedBelow(fs: Fs, src: Path, dst: Path, env: Env)
    requires WellFormed(fs) && MovePath(fs, src, dst, env).Some?
    ensures FilesBelow(MovePath(fs, src, dst, env).value, dst) <= FilesBelow(fs, src)
    ensures |FilesBelow(MovePath(fs, src, dst, env).value, dst)| <= |FilesBelow(fs, src)|
  {
    hide MovePath, WellFormed, FilesBelow;
    MoveContents(fs, src, dst, env);
    var r := MovePath(fs, src, dst, env).value;
    forall p | p in FilesBelow(r, dst) ensures p in FilesBelow(fs, src) {
      IsBelow(r, dst, p);
      IsBelow(fs, src, p);
      assert (dst + p)[|dst|..] == p && dst <= dst + p;
    }
    PathsSubset(FilesBelow(r, dst), FilesBelow(fs, src));
  }

  /* ---- a file completed onto another's temporary file ---- */

  lemma MidwayOurs(c: Parcel, s: State, r: State, root: Path, staging: Path, prog: seq<Progress>)
    requires Good(c) && |prog| == |c.ids| && root != [] && Midway(c, s, r, root, staging, prog, |c.L().dirs|)
    ensures Ours(c, s, r, root) && !Failed(c, r)
  {
    hide Good, List, WellFormed;
    GoodFolder(c);
    forall id | id in c.ids && id in r.recv ensures OurFile(c, r.recv[id], root) {
      var i :| 0 <= i < |c.ids| && c.ids[i] == id;
      assert FileLive(c, r, root, prog, i);
    }
  }

  lemma {:induction false} ImageSize(xs: set<nat>, f: nat -> Path)
    ensures |set x | x in xs :: f(x)| <= |xs|
  {
    if xs != {} {
      var y :| y in xs;
      ImageSize(xs - {y}, f);
      assert (set x | x in xs :: f(x)) == (set x | x in xs - {y} :: f(x)) + {f(y)};
    }
  }

  /** There are no more files than were opened. */
  lemma CountOpened(c: Parcel, fs: Fs, root: Path, prog: seq<Progress>)
    requires Good(c) && |prog| == |c.ids| && OnDisk(c, fs, root, prog, |c.L().dirs|)
    ensures |FilesBelow(fs, root)| <= |Opened(prog)|
  {
    hide Good, List, WellFormed, FileOnDisk, FilesBelow;
    GoodFolder(c);
    assert c.L().dirs[..|c.L().dirs|] == c.L().dirs && root + [] == root;
    var f := (i: nat) =>
      if i < |prog| == |c.L().files| then if prog[i].Sending? then prog[i].part else c.L().files[i].path else [];
    var places := set i | i in Opened(prog) :: f(i);
    forall p | p in FilesBelow(fs, root) ensures p in places {
      IsBelow(fs, root, p);
      assert p != [] && Known(c, prog, |c.L().dirs|, p);
      var i :| 0 <= i < |prog| && !prog[i].Unsent? && f(i) == p;
      assert i in Opened(prog);
    }
    ImageSize(Opened(prog), f);
    PathsSubset(FilesBelow(fs, root), places);
  }

  lemma ClashOverwrites(c: Parcel, s: State, r: State, root: Path, staging: Path, prog: seq<Progress>, i: nat, env: Env)
    requires Good(c) && |prog| == |c.ids| == |c.L().files| && root != [] && CanMove(c, prog, Complete(i))
    requires Midway(c, s, r, root, staging, prog, |c.L().dirs|) && ClashAt(c, prog, Complete(i))
    ensures Broken(c, s, Handle(r, MessageOf(c, prog, Complete(i), env), env), root, Moved(c, prog, Complete(i)))
  {
    hide Good, List, WellFormed, FilesBelow, Done, RenameFile, Opened, Known, Going, OthersSame;
    GoodFolder(c);
    MidwayOurs(c, s, r, root, staging, prog);
    var f, id := c.L().files[i], c.ids[i];
    var j :| 0 <= j < |prog| && j != i && prog[j].Sending? && prog[j].part == f.path;
    assert FileLive(c, r, root, prog, i) && FileOnDisk(c, r.fs, root, prog, i) && FileOnDisk(c, r.fs, root, prog, j);
    SamePrefix(root, prog[i].part, f.path);
    CountOpened(c, r.fs, root, prog);
    DoneGoes(c, s, r, root, id, env.sha(f.content), env);
    OpenedAfter(c, prog, Complete(i));
    var t := r.recv[id];
    if RenameFile(r.fs, t.part, t.final, id, t.written, env).Some? {
      RenameGoes(r.fs, root, t.part, t.final, id, t.written, env);
    }
  }

  /* ---- a file opened while another's temporary file has its place ---- */

  /** `q` is `p`, or `p` under a longer name. */
  predicate SameOrLonger(p: Path, q: Path) {
    p == q || (p != [] && q != [] && |p[|p| - 1]| < |q[|q| - 1]|)
  }

  /** Where the files of the folder are or will be: `finals`. */
  ghost predicate StrayFile(c: Parcel, r: State, root: Path, prog: seq<Progress>, finals: seq<Path>, i: nat)
    requires c.root.Folder? && |prog| == |c.L().files| == |c.ids| == |finals| && i < |prog|
  {
    && (c.ids[i] in r.recv <==> prog[i].Sending?)
    && (prog[i].Sending? ==> r.recv[c.ids[i]].final == root + finals[i])
    && (!prog[i].Unsent? ==> SameOrLonger(c.L().files[i].path, finals[i]))
  }

  /** What is at `p` is a temporary file of the folder, or a finished file of it. */
  ghost predicate PlacedBy(c: Parcel, r: State, root: Path, prog: seq<Progress>, finals: seq<Path>, p: Path)
    requires |prog| == |c.ids| == |finals|
  {
    exists i :: 0 <= i < |prog| &&
      if prog[i].Sending? then c.ids[i] in r.recv && r.recv[c.ids[i]].part == root + p
      else prog[i].Sent? && finals[i] == p
  }

  /** Some file went astray: it is not where it belongs, or will not be. */
  predicate Astray(c: Parcel, prog: seq<Progress>, finals: seq<Path>)
    requires c.root.Folder? && |prog| == |c.L().files| == |finals|
  {
    exists i :: 0 <= i < |prog| && !prog[i].Unsent? && finals[i] != c.L().files[i].path
  }

  ghost predicate StraysOn(c: Parcel, r: State, root: Path, prog: seq<Progress>, finals: seq<Path>)
    requires c.root.Folder? && |prog| == |c.L().files| == |c.ids| == |finals|
  {
    && (forall i :: 0 <= i < |prog| ==> StrayFile(c, r, root, prog, finals, i))
    && (forall p :: p in FilesBelow(r.fs, root) ==> PlacedBy(c, r, root, prog, finals, p))
  }

  ghost predicate Strays(c: Parcel, s: State, r: State, root: Path, prog: seq<Progress>, finals: seq<Path>)
    requires c.root.Folder? && |prog| == |c.L().files| == |c.ids|
  {
    && Ours(c, s, r, root) && |finals| == |prog|
    && (Failed(c, r) || (StraysOn(c, r, root, prog, finals) && Astray(c, prog, finals)))
  }

  /** Where an accepted file goes: its own path if that is free, a longer name if not. */
  ghost predicate FinalFor(fs: Fs, dir: Path, name: string, final: Path) {
    && |final| == |dir| + 1 && dir <= final
    && SameOrLonger(dir + [name], final) && (dir + [name] in fs ==> final != dir + [name])
  }

  lemma FreeFinal(fs: Fs, dir: Path, name: string)
    ensures FinalFor(fs, dir, name, FreeFilePath(fs, dir, name))
  {
    var (stem, ext) := SplitExt(name);
    PlacementIsFresh(fs, dir, stem, ext);
    assert stem + ext == name;
  }

  lemma BegunFinal(fs: Fs, dir: Path, id: nat, name: string, size: nat, tree: Option<nat>, env: Env)
    requires WellFormed(fs) && Names.IsClean(name)
    ensures var (r, t) := BeginRecv(fs, dir, id, name, size, None, tree, env);
            t.Some? ==>
              && FinalFor(fs, dir, name, t.value.final) && dir <= t.value.part
              && forall q :: q in r && !r[q].Dir? && q != t.value.part ==> q in fs && !fs[q].Dir?
  {
    hide WellFormed, Names.IsClean, Names.Sanitize, MkdirAll, FreeFilePath, FinalFor, CreatePart;
    Names.CleanIsFixed(name);
    BeginRecvEffect(fs, dir, id, name, size, None, tree, env);
    if MkdirAll(fs, dir, env).Some? {
      var fs1 := MkdirAll(fs, dir, env).value;
      MkdirAllEffect(fs, dir, env);
      FreeFinal(fs1, dir, name);
      FinalBefore(fs, fs1, dir, name, FreeFilePath(fs1, dir, name));
    }
  }

  lemma FinalBefore(fs: Fs, fs1: Fs, dir: Path, name: string, final: Path)
    requires FinalFor(fs1, dir, name, final) && forall q :: q in fs ==> q in fs1
    ensures FinalFor(fs, dir, name, final)
  {
  }

  /** An accepted file is registered as it was begun. */
  lemma OpenedIsBegun(s: State, tree: nat, t: Tree, id: nat, path: Path, size: nat, env: Env)
    requires tree in s.trees && t.failed.None? && path != []
    ensures var r, k := OpenInTree(s, tree, t, id, path, size, env), |path| - 1;
            var begun := BeginRecv(s.fs, t.root + path[..k], id, path[k], size, t.drag, Some(tree), env);
            r.trees[tree].failed.Some?
            || (begun.1.Some? && r.fs == begun.0 && r.recv == s.recv[id := begun.1.value])
  {
    hide BeginRecv;
  }

  /** A file of the folder that is accepted. */
  lemma OfferFinal(c: Parcel, s: State, r: State, root: Path, i: nat, env: Env) returns (final: Path)
    requires Good(c) && Ours(c, s, r, root) && i < |c.ids| == |c.L().files|
    ensures var f, id := c.L().files[i], c.ids[i];
            var next := OfferInTree(r, c.tree, id, Text(f.path), |f.content|, env);
            Failed(c, next)
            || (&& id in next.recv && next.recv == r.recv[id := next.recv[id]]
                && root <= next.recv[id].part && next.recv[id].final == root + final
                && SameOrLonger(f.path, final) && (root + f.path in r.fs ==> final != f.path)
                && forall q :: q in next.fs && !next.fs[q].Dir? && q != next.recv[id].part ==>
                     q in r.fs && !r.fs[q].Dir?)
  {
    hide Good, List, WellFormed, BeginRecv, Names.SanitizeRel, Names.IsClean, At, Text, FileAt, SameOrLonger, OurFile,
      FinalFor, OpenInTree;
    GoodFolder(c);
    FileFacts(c, i);
    var p, id := c.L().files[i].path, c.ids[i];
    var k, size := |p| - 1, |c.L().files[i].content|;
    RelArrives(p);
    var dir := root + p[..k];
    assert root <= dir;
    BegunFinal(r.fs, dir, id, p[k], size, Some(c.tree), env);
    if r.trees[c.tree].failed.None? {
      var t := r.trees[c.tree].(entries := r.trees[c.tree].entries + 1, offered := r.trees[c.tree].offered + [id]);
      OpenedIsBegun(r, c.tree, t, id, p, size, env);
    }
    var t := BeginRecv(r.fs, dir, id, p[k], size, None, Some(c.tree), env).1;
    final := [];
    if t.Some? {
      FinalBelow(r.fs, root, p, t.value.final);
      final := t.value.final[|root|..];
    }
  }

  lemma FinalBelow(fs: Fs, root: Path, p: Path, final: Path)
    requires p != [] && FinalFor(fs, root + p[..|p| - 1], p[|p| - 1], final)
    ensures root <= final && final == root + final[|root|..] && SameOrLonger(p, final[|root|..])
    ensures root + p in fs ==> final[|root|..] != p
  {
    var q, dir := final[|root|..], root + p[..|p| - 1];
    assert dir + [p[|p| - 1]] == root + p && final[..|root|] == dir[..|root|] == root;
    assert q[|q| - 1] == final[|final| - 1] && (root + p)[|root + p| - 1] == p[|p| - 1];
  }

  /** The clash itself: the file that is opened goes astray. */
  lemma ClashStrays(c: Parcel, s: State, r: State, root: Path, staging: Path, prog: seq<Progress>, i: nat, env: Env)
    returns (finals: seq<Path>)
    requires Good(c) && |prog| == |c.ids| == |c.L().files| && root != [] && CanMove(c, prog, Open(i))
    requires Midway(c, s, r, root, staging, prog, |c.L().dirs|) && ClashAt(c, prog, Open(i))
    ensures Strays(c, s, Handle(r, MessageOf(c, prog, Open(i), env), env), root, Moved(c, prog, Open(i)), finals)
  {
    hide Good, List, WellFormed, FilesBelow, OfferInTree, Known, Going, OthersSame, Text, FreePart, Taken, Ours;
    GoodFolder(c);
    MidwayOurs(c, s, r, root, staging, prog);
    var f, id := c.L().files[i], c.ids[i];
    var j :| 0 <= j < |prog| && j != i && prog[j].Sending? && prog[j].part == f.path;
    assert FileOnDisk(c, r.fs, root, prog, j);
    var final := OfferFinal(c, s, r, root, i, env);
    finals := seq(|prog|, k requires 0 <= k < |prog| => c.L().files[k].path)[i := final];
    OfferGoes(c, s, r, root, id, Text(f.path), |f.content|, env);
    var next, after := Handle(r, MessageOf(c, prog, Open(i), env), env), Moved(c, prog, Open(i));
    if !Failed(c, next) {
      DistinctIds(c);
      forall k | 0 <= k < |prog| ensures StrayFile(c, next, root, after, finals, k) {
        assert FileLive(c, r, root, prog, k);
      }
      forall p | p in FilesBelow(next.fs, root) ensures PlacedBy(c, next, root, after, finals, p) {
        IsBelow(next.fs, root, p);
        if root + p != next.recv[id].part { AlreadyPlaced(c, s, r, root, staging, prog, i, next, after, finals, p); }
        assert after[i].Sending?;
      }
      assert after[i].Sending? && finals[i] != f.path;
    }
  }

  /** What was there before the clash. */
  lemma AlreadyPlaced(c: Parcel, s: State, r: State, root: Path, staging: Path, prog: seq<Progress>, i: nat,
                      next: State, after: seq<Progress>, finals: seq<Path>, p: Path)
    requires Good(c) && |prog| == |after| == |finals| == |c.ids| == |c.L().files| && i < |prog| && prog[i].Unsent?
    requires Midway(c, s, r, root, staging, prog, |c.L().dirs|) && root + p in r.fs && !r.fs[root + p].Dir?
    requires c.ids[i] in next.recv && next.recv == r.recv[c.ids[i] := next.recv[c.ids[i]]] && after[i].Sending?
    requires forall k :: 0 <= k < |prog| && k != i ==> after[k] == prog[k] && finals[k] == c.L().files[k].path
    ensures PlacedBy(c, next, root, after, finals, p)
  {
    hide Good, List, WellFormed, FileOnDisk, Going, OthersSame;
    GoodFolder(c);
    assert c.L().dirs[..|c.L().dirs|] == c.L().dirs && root + [] == root;
    DistinctIds(c);
    assert p != [] && Known(c, prog, |c.L().dirs|, p);
    var k :| 0 <= k < |prog| && !prog[k].Unsent?
             && (if prog[k].Sending? then prog[k].part else c.L().files[k].path) == p;
    assert FileLive(c, r, root, prog, k);
    assert if after[k].Sending? then c.ids[k] in next.recv && next.recv[c.ids[k]].part == root + p
           else after[k].Sent? && finals[k] == p;
  }

  /* ---- astray for good ---- */

  /** One more move of any kind. */
  lemma StrayMove(c: Parcel, s: State, r: State, root: Path, prog: seq<Progress>, finals: seq<Path>, m: Move, env: Env)
    returns (more: seq<Path>)
    requires Good(c) && |prog| == |c.L().files| == |c.ids| && CanMove(c, prog, m) && Strays(c, s, r, root, prog, finals)
    ensures Strays(c, s, Handle(r, MessageOf(c, prog, m, env), env), root, Moved(c, prog, m), more)
  {
    hide Good, List, StraysOn, Astray, Handle, OfferInTree, FreePart, Taken, Text, FilesBelow;
    GoodFolder(c);
    MoveGoes(c, s, r, root, prog, m, env);
    more := finals;
    if !Failed(c, r) {
      match m
      case Open(i) => more := StrayOpens(c, s, r, root, prog, finals, i, env);
      case Chunk(_, _) => StrayChunk(c, s, r, root, prog, finals, m, env);
      case Complete(i) => StrayDone(c, s, r, root, prog, finals, i, env);
    }
  }

  lemma StrayOpens(c: Parcel, s: State, r: State, root: Path, prog: seq<Progress>, finals: seq<Path>, i: nat, env: Env)
    returns (more: seq<Path>)
    requires Good(c) && |prog| == |c.L().files| == |c.ids| == |finals| && CanMove(c, prog, Open(i))
    requires Ours(c, s, r, root) && StraysOn(c, r, root, prog, finals) && Astray(c, prog, finals)
    ensures |more| == |prog|
    ensures var next, after := Handle(r, MessageOf(c, prog, Open(i), env), env), Moved(c, prog, Open(i));
            Failed(c, next) || (StraysOn(c, next, root, after, more) && Astray(c, after, more))
  {
    hide Good, List, WellFormed, FilesBelow, OfferInTree, Text, FreePart, Taken, Ours;
    GoodFolder(c);
    var id := c.ids[i];
    var final := OfferFinal(c, s, r, root, i, env);
    more := finals[i := final];
    var next, after := Handle(r, MessageOf(c, prog, Open(i), env), env), Moved(c, prog, Open(i));
    if !Failed(c, next) {
      DistinctIds(c);
      forall k | 0 <= k < |prog| ensures StrayFile(c, next, root, after, more, k) {
        assert StrayFile(c, r, root, prog, finals, k);
      }
      forall p | p in FilesBelow(next.fs, root) ensures PlacedBy(c, next, root, after, more, p) {
        IsBelow(next.fs, root, p);
        IsBelow(r.fs, root, p);
        if root + p != next.recv[id].part {
          var k :| 0 <= k < |prog| && if prog[k].Sending? then c.ids[k] in r.recv && r.recv[c.ids[k]].part == root + p
                                      else prog[k].Sent? && finals[k] == p;
          assert k != i && after[k] == prog[k] && more[k] == finals[k];
        }
        assert after[i].Sending?;
      }
      var k :| 0 <= k < |prog| && !prog[k].Unsent? && finals[k] != c.L().files[k].path;
      assert k != i && after[k] == prog[k];
    }
  }

  lemma StrayChunk(c: Parcel, s: State, r: State, root: Path, prog: seq<Progress>, finals: seq<Path>, m: Move, env: Env)
    requires Good(c) && |prog| == |c.L().files| == |c.ids| == |finals| && m.Chunk? && CanMove(c, prog, m)
    requires Ours(c, s, r, root) && StraysOn(c, r, root, prog, finals) && Astray(c, prog, finals)
    ensures var next, after := Handle(r, MessageOf(c, prog, m, env), env), Moved(c, prog, m);
            Failed(c, next) || (StraysOn(c, next, root, after, finals) && Astray(c, after, finals))
  {
    hide Good, List, WellFormed, FilesBelow, Receiving.Chunk, Ours;
    GoodFolder(c);
    var i, id, f := m.file, c.ids[m.file], c.L().files[m.file];
    ChunkGoes(c, s, r, root, id, prog[i].sent, f.content[prog[i].sent..prog[i].sent + m.size], env);
    var next, after := Handle(r, MessageOf(c, prog, m, env), env), Moved(c, prog, m);
    if !Failed(c, next) {
      DistinctIds(c);
      assert StrayFile(c, r, root, prog, finals, i);
      forall k | 0 <= k < |prog| ensures StrayFile(c, next, root, after, finals, k) {
        assert StrayFile(c, r, root, prog, finals, k);
      }
      forall p | p in FilesBelow(next.fs, root) ensures PlacedBy(c, next, root, after, finals, p) {
        var k :| 0 <= k < |prog| && if prog[k].Sending? then c.ids[k] in r.recv && r.recv[c.ids[k]].part == root + p
                                    else prog[k].Sent? && finals[k] == p;
        assert after[k].Sending? == prog[k].Sending? && after[k].Sent? == prog[k].Sent?;
      }
      var k :| 0 <= k < |prog| && !prog[k].Unsent? && finals[k] != c.L().files[k].path;
      assert !after[k].Unsent?;
    }
  }

  lemma StrayDone(c: Parcel, s: State, r: State, root: Path, prog: seq<Progress>, finals: seq<Path>, i: nat, env: Env)
    requires Good(c) && |prog| == |c.L().files| == |c.ids| == |finals| && CanMove(c, prog, Complete(i))
    requires Ours(c, s, r, root) && StraysOn(c, r, root, prog, finals) && Astray(c, prog, finals)
    ensures var next, after := Handle(r, MessageOf(c, prog, Complete(i), env), env), Moved(c, prog, Complete(i));
            Failed(c, next) || (StraysOn(c, next, root, after, finals) && Astray(c, after, finals))
  {
    hide Good, List, WellFormed, FilesBelow, Done, RenameFile, Ours;
    GoodFolder(c);
    var f, id := c.L().files[i], c.ids[i];
    DoneGoes(c, s, r, root, id, env.sha(f.content), env);
    DoneGone(r, id, env.sha(f.content), env);
    var next, after := Handle(r, MessageOf(c, prog, Complete(i), env), env), Moved(c, prog, Complete(i));
    if !Failed(c, next) {
      DistinctIds(c);
      assert StrayFile(c, r, root, prog, finals, i);
      forall k | 0 <= k < |prog| ensures StrayFile(c, next, root, after, finals, k) {
        assert StrayFile(c, r, root, prog, finals, k);
      }
      var t := r.recv[id];
      forall p | p in FilesBelow(next.fs, root) ensures PlacedBy(c, next, root, after, finals, p) {
        IsBelow(next.fs, root, p);
        IsBelow(r.fs, root, p);
        RenamedNode(r.fs, t.part, t.final, id, t.written, env, root + p);
        SamePrefix(root, p, finals[i]);
        assert after[i].Sent?;
        if p != finals[i] {
          var k :| 0 <= k < |prog| && if prog[k].Sending? then c.ids[k] in r.recv && r.recv[c.ids[k]].part == root + p
                                      else prog[k].Sent? && finals[k] == p;
          assert k != i && after[k] == prog[k];
        }
      }
      var k :| 0 <= k < |prog| && !prog[k].Unsent? && finals[k] != c.L().files[k].path;
      assert !after[k].Unsent?;
    }
  }

  lemma DoneGone(r: State, id: nat, digest: Digest, env: Env)
    ensures Done(r, id, digest, env).recv == r.recv - {id}
  {
    hide FinalizeTree, SettleInDrag, FinishRecv;
  }

  lemma RenamedNode(fs: Fs, src: Path, dst: Path, id: nat, content: Bytes, env: Env, q: Path)
    requires RenameFile(fs, src, dst, id, content, env).Some?
    ensures var r := RenameFile(fs, src, dst, id, content, env).value;
            q in r && q != dst ==> q in fs && r[q] == fs[q] && q != src
  {
  }

  lemma {:induction false} StaysStray(c: Parcel, s: State, r: State, root: Path, prog: seq<Progress>,
                                      finals: seq<Path>, moves: seq<Move>, env: Env)
    returns (done: seq<Progress>, last: seq<Path>)
    requires Good(c) && |prog| == |c.L().files| == |c.ids| && SendsAll(c, prog, moves)
             && Strays(c, s, r, root, prog, finals)
    ensures |done| == |c.ids| && (forall i :: 0 <= i < |done| ==> done[i].Sent?)
    ensures Strays(c, s, Receive(c, r, prog, moves, env), root, done, last)
    decreases |moves|
  {
    hide Good, List, Handle, Strays;
    GoodFolder(c);
    done, last := prog, finals;
    if moves != [] {
      var m := moves[0];
      var next, after := Handle(r, MessageOf(c, prog, m, env), env), Moved(c, prog, m);
      var more := StrayMove(c, s, r, root, prog, finals, m, env);
      done, last := StaysStray(c, s, next, root, after, more, moves[1..], env);
    }
  }

  /** A file that went astray leaves some path empty: at the latest that of the one among
      them with the shortest name. */
  lemma {:induction false} SomeMissing(c: Parcel, finals: seq<Path>, i: nat)
    requires Good(c) && i < |finals| == |c.L().files| == |c.ids| && finals[i] != c.L().files[i].path
    requires forall k :: 0 <= k < |finals| ==> c.L().files[k].path != [] && SameOrLonger(c.L().files[k].path, finals[k])
    ensures exists k :: 0 <= k < |finals| && c.L().files[k].path !in finals
    decreases var p := c.L().files[i].path; if p == [] then 0 else |p[|p| - 1]|
  {
    hide Good, List;
    GoodFolder(c);
    var p := c.L().files[i].path;
    if p in finals {
      var h :| 0 <= h < |finals| && finals[h] == p;
      if h < i { PathsDistinct(c, h, i); } else { PathsDistinct(c, i, h); }
      SomeMissing(c, finals, h);
    }
  }

  lemma StraysMiss(c: Parcel, r: State, root: Path, done: seq<Progress>, finals: seq<Path>)
    requires Good(c) && |done| == |finals| == |c.ids| == |c.L().files|
             && (forall i :: 0 <= i < |done| ==> done[i].Sent?)
    requires StraysOn(c, r, root, done, finals) && Astray(c, done, finals)
    ensures exists k :: 0 <= k < |c.ids| && c.L().files[k].path !in FilesBelow(r.fs, root)
  {
    hide Good, List, FilesBelow, Sendable, FileAt, SameOrLonger;
    GoodFolder(c);
    forall k | 0 <= k < |finals|
      ensures c.L().files[k].path != [] && SameOrLonger(c.L().files[k].path, finals[k])
    {
      FileFacts(c, k);
      assert StrayFile(c, r, root, done, finals, k);
    }
    var i :| 0 <= i < |done| && finals[i] != c.L().files[i].path;
    SomeMissing(c, finals, i);
    forall p | p in FilesBelow(r.fs, root) ensures p in finals { assert PlacedBy(c, r, root, done, finals, p); }
  }

  lemma StraysEnd(c: Parcel, s: State, r: State, root: Path, done: seq<Progress>, finals: seq<Path>, env: Env)
    requires Good(c) && |done| == |c.ids| == |c.L().files| && (forall i :: 0 <= i < |done| ==> done[i].Sent?)
    requires Strays(c, s, r, root, done, finals)
    ensures !ArrivedWhole(c, s, EndTree(r, c.tree, None, env))
  {
    hide Good, List, Ours, StraysOn, Astray, FilesBelow, ArrivedWhole;
    GoodFolder(c);
    if ArrivedWhole(c, s, EndTree(r, c.tree, None, env)) {
      WholeNeedsAll(c, s, r, root, env);
      StraysMiss(c, r, root, done, finals);
    }
  }

  /* ---- exactly, for every interleaving ---- */

  /** The premises of sending a folder: the disk cooperates, and its ids are new to the receiver. */
  ghost predicate CanBegin(c: Parcel, s: State, env: Env) {
    && AllLucky(env) && WellFormed(s.fs) && c.tree !in s.trees && (forall id :: id in c.ids ==> id !in s.recv)
    && MkdirAll(s.fs, s.fileDir + [TreeStagingName(c.tree)], env).Some?
  }

  /** The folder went wrong for good. */
  ghost predicate Spoilt(c: Parcel, s: State, r: State, root: Path) {
    && Good(c) && c.root.Folder? && |c.ids| == |c.L().files|
    && exists done: seq<Progress> ::
         && |done| == |c.ids| && (forall i :: 0 <= i < |done| ==> done[i].Sent?)
         && (Broken(c, s, r, root, done) || exists finals :: Strays(c, s, r, root, done, finals))
  }

  lemma {:induction false} ClashSpoils(c: Parcel, s: State, r: State, root: Path, staging: Path, prog: seq<Progress>,
                                       moves: seq<Move>, env: Env)
    requires Good(c) && AllLucky(env) && |prog| == |c.L().files| == |c.ids| && root != []
    requires SendsAll(c, prog, moves) && !ClashFree(c, prog, moves)
    requires Midway(c, s, r, root, staging, prog, |c.L().dirs|)
    ensures Spoilt(c, s, Receive(c, r, prog, moves, env), root)
    decreases |moves|
  {
    hide Good, List, Handle, Midway, Broken, Strays, ClashAt;
    GoodFolder(c);
    var m, rest := moves[0], moves[1..];
    var next, after := Handle(r, MessageOf(c, prog, m, env), env), Moved(c, prog, m);
    if ClashAt(c, prog, m) {
      NoClashChunk(c, prog, m);
      if m.Open? {
        var finals := ClashStrays(c, s, r, root, staging, prog, m.file, env);
        var done, last := StaysStray(c, s, next, root, after, finals, rest, env);
      } else {
        ClashOverwrites(c, s, r, root, staging, prog, m.file, env);
        StaysBroken(c, s, next, root, after, rest, env);
      }
    } else {
      match m {
        case Open(i) => OpenReceived(c, s, r, root, staging, prog, i, env);
        case Chunk(_, _) => ChunkReceived(c, s, r, root, staging, prog, m, env);
        case Complete(i) =>
          SameClash(c, prog, i);
          DoneReceived(c, s, r, root, staging, prog, i, env);
      }
      ClashSpoils(c, s, next, root, staging, after, rest, env);
    }
  }

  lemma NoClashChunk(c: Parcel, prog: seq<Progress>, m: Move)
    requires c.root.Folder? && |prog| == |c.L().files| && m.file < |prog| && ClashAt(c, prog, m)
    ensures !m.Chunk?
  {
  }

  lemma SameClash(c: Parcel, prog: seq<Progress>, i: nat)
    requires c.root.Folder? && |prog| == |c.L().files| && i < |prog|
    ensures ClashAt(c, prog, Open(i)) == ClashAt(c, prog, Complete(i))
  {
  }

  lemma SpoiltEnds(c: Parcel, s: State, r: State, root: Path, env: Env)
    requires Spoilt(c, s, r, root)
    ensures !ArrivedWhole(c, s, EndTree(r, c.tree, None, env))
  {
    hide Good, List, Broken, Strays, ArrivedWhole, EndTree;
    GoodFolder(c);
    var done: seq<Progress> :| |done| == |c.ids| && (forall i :: 0 <= i < |done| ==> done[i].Sent?)
      && (Broken(c, s, r, root, done) || exists finals :: Strays(c, s, r, root, done, finals));
    if Broken(c, s, r, root, done) {
      BrokenEnds(c, s, r, root, done, env);
    } else {
      var finals :| Strays(c, s, r, root, done, finals);
      StraysEnd(c, s, r, root, done, finals, env);
    }
  }

  lemma SamePlaced(c: Parcel, s: State, q: State, r: State)
    requires s.placed == q.placed
    ensures ArrivedWhole(c, s, r) <==> ArrivedWhole(c, q, r)
  {
  }

  lemma ClashNotWhole(c: Parcel, s: State, moves: seq<Move>, env: Env)
    requires Good(c) && CanBegin(c, s, env) && SendsAll(c, NothingSent(|c.ids|), moves)
    requires !ClashFree(c, NothingSent(|c.ids|), moves)
    ensures !ArrivedWhole(c, s, ReceiveAll(c, s, moves, env))
  {
    hide Good, List, WellFormed, MkdirAll, FreeDirPath, TreeStagingName, Handle, Midway, ArrivedWhole, Spoilt;
    hide Receive, SendsAll, ClashFree, ReceiveDirs;
    GoodFolder(c);
    var staging := s.fileDir + [TreeStagingName(c.tree)];
    var fs := MkdirAll(s.fs, staging, env).value;
    var root := FreeDirPath(fs, staging, c.name);
    Begun(c, s, env);
    var s0, s1, prog := s.(fs := fs), Handle(s, Begin(c), env), NothingSent(|c.ids|);
    var s2 := ReceiveDirs(c, s1, |c.L().dirs|, env);
    DirsReceived(c, s0, s1, root, staging, prog, |c.L().dirs|, env);
    ClashSpoils(c, s0, s2, root, staging, prog, moves, env);
    var s3 := Receive(c, s2, prog, moves, env);
    SpoiltEnds(c, s0, s3, root, env);
    Ended(s3, c.tree, env);
    SamePlaced(c, s0, s, EndTree(s3, c.tree, None, env));
  }

  /** Whatever the order in which the streams of its files interleave: a folder arrives
      as it is if and only if no file of it was opened or completed while another one's
      temporary file had its place. */
  lemma WholeExactly(c: Parcel, s: State, moves: seq<Move>, env: Env)
    requires Good(c) && CanBegin(c, s, env) && SendsAll(c, NothingSent(|c.ids|), moves)
    ensures ArrivedWhole(c, s, ReceiveAll(c, s, moves, env)) <==> ClashFree(c, NothingSent(|c.ids|), moves)
  {
    hide Good, List, WellFormed, MkdirAll, TreeStagingName, ReceiveAll, SameTree, SendsAll, ClashFree;
    GoodFolder(c);
    if ClashFree(c, NothingSent(|c.ids|), moves) {
      var dest := FolderArrivesIntact(c, s, moves, env);
    } else {
      ClashNotWhole(c, s, moves, env);
    }
  }

  /* ---- folders that cannot clash ---- */

  /** Where the temporary file of the file at `p` goes as long as only directories are in the way. */
  function Spot(c: Parcel, p: Path): Path
    requires c.root.Folder?
  {
    FreePart((set d | d in c.L().dirs), p)
  }

  /** No file has the place of another file's temporary file. */
  ghost predicate NoneInTheWay(c: Parcel)
    requires c.root.Folder?
  {
    forall f, g :: f in c.L().files && g in c.L().files ==> g.path != Spot(c, f.path)
  }

  /** The files' temporary files have different places. */
  ghost predicate SpotsApart(c: Parcel)
    requires c.root.Folder?
  {
    forall i, j :: 0 <= i < j < |c.L().files| ==> Spot(c, c.L().files[i].path) != Spot(c, c.L().files[j].path)
  }

  /** A place that is still free is still chosen. */
  lemma StillFree(few: set<Path>, many: set<Path>, p: Path)
    requires p != [] && few <= many && FreePart(few, p) !in many
    ensures FreePart(many, p) == FreePart(few, p)
  {
    var dir := p[..|p| - 1];
    var a: Fs, b: Fs := map q | q in few :: Dir, map q | q in many :: Dir;
    var (stem, ext) := SplitExt(p[|p| - 1] + ".vylopart");
    PlacementIsFresh(a, dir, stem, ext);
    PlacementIsFresh(b, dir, stem, ext);
    forall k: nat | k < FirstFree(a.Keys, dir, stem, ext, 0) ensures dir + [Numbered(stem, ext, k)] in b {
      assert dir + [Numbered(stem, ext, k)] in a;
    }
    assert FirstFree(a.Keys, dir, stem, ext, 0) == FirstFree(b.Keys, dir, stem, ext, 0);
  }

  lemma SpotFree(c: Parcel, taken: set<Path>, p: Path)
    requires c.root.Folder? && p != [] && Spot(c, p) !in taken && forall d :: d in c.L().dirs ==> d in taken
    ensures FreePart(taken, p) == Spot(c, p)
  {
    hide List, FreePart;
    StillFree((set d | d in c.L().dirs), taken, p);
  }

  /** Every temporary file is at its spot. */
  predicate AtSpots(c: Parcel, prog: seq<Progress>)
    requires c.root.Folder? && |prog| == |c.L().files|
  {
    forall i :: 0 <= i < |prog| && prog[i].Sending? ==> prog[i].part == Spot(c, c.L().files[i].path)
  }

  lemma OpensAtSpot(c: Parcel, prog: seq<Progress>, i: nat)
    requires Good(c) && NoneInTheWay(c) && SpotsApart(c) && |prog| == |c.L().files| && i < |prog| && prog[i].Unsent?
    requires AtSpots(c, prog)
    ensures FreePart(Taken(c, prog), c.L().files[i].path) == Spot(c, c.L().files[i].path)
  {
    hide Good, List, FreePart, Sendable, FileAt;
    GoodFolder(c);
    FileFacts(c, i);
    var p := c.L().files[i].path;
    FreePartPlace((set d | d in c.L().dirs), p);
    forall j | 0 <= j < |prog| && prog[j].Sent? ensures c.L().files[j].path != Spot(c, p) {
      assert c.L().files[i] in c.L().files && c.L().files[j] in c.L().files;
    }
    SpotFree(c, Taken(c, prog), p);
  }

  lemma {:induction false} NeverClash(c: Parcel, prog: seq<Progress>, moves: seq<Move>)
    requires Good(c) && NoneInTheWay(c) && SpotsApart(c) && |prog| == |c.L().files| == |c.ids|
    requires AtSpots(c, prog) && SendsAll(c, prog, moves)
    ensures ClashFree(c, prog, moves)
    decreases |moves|
  {
    hide Good, List, SpotsApart, Taken, FreePart, Spot;
    GoodFolder(c);
    if moves != [] {
      var m := moves[0];
      if m.Open? { OpensAtSpot(c, prog, m.file); }
      forall j | 0 <= j < |prog| && prog[j].Sending? ensures prog[j].part != c.L().files[m.file].path {
        assert c.L().files[j] in c.L().files && c.L().files[m.file] in c.L().files;
      }
      NeverClash(c, Moved(c, prog, m), moves[1..]);
    }
  }

  /* ---- the sender's order ---- */

  /** The files before `k` that are not through. */
  function Unfinished(prog: seq<Progress>, k: nat): set<nat> { set j | 0 <= j < k && j < |prog| && !prog[j].Sent? }

  /** Files are started in the order of the plan, a few at a time: a file can be offered when
      few enough of those before it are not through. */
  ghost predicate InPlanOrder(c: Parcel, prog: seq<Progress>, moves: seq<Move>)
    requires c.root.Folder? && |prog| == |c.L().files| == |c.ids| && SendsAll(c, prog, moves)
    decreases |moves|
  {
    moves == []
    || (&& (moves[0].Open? ==> |Unfinished(prog, moves[0].file)| < Senders.TREE_WINDOW)
        && InPlanOrder(c, Moved(c, prog, moves[0]), moves[1..]))
  }

  /** The next move of file `k`. */
  function NextMove(c: Parcel, prog: seq<Progress>, k: nat): Move
    requires c.root.Folder? && |prog| == |c.L().files| && k < |prog|
    requires prog[k].Sending? ==> prog[k].sent <= |c.L().files[k].content|
  {
    if !prog[k].Sending? then Open(k)
    else
      var left := |c.L().files[k].content| - prog[k].sent;
      if left == 0 then Complete(k) else if left < CHUNK_SIZE then Move.Chunk(k, left) else Move.Chunk(k, CHUNK_SIZE)
  }

  /** All files can be finished one after the other, in plan order. */
  lemma {:induction false} InOrderCanFinish(c: Parcel, prog: seq<Progress>, k: nat) returns (moves: seq<Move>)
    requires c.root.Folder? && |prog| == |c.L().files| == |c.ids| && k <= |prog|
    requires forall i :: 0 <= i < k ==> prog[i].Sent?
    requires forall i :: 0 <= i < |prog| && prog[i].Sending? ==> prog[i].sent <= |c.L().files[i].content|
    ensures SendsAll(c, prog, moves) && InPlanOrder(c, prog, moves)
    decreases |prog| - k, Left(c, prog, k)
  {
    hide List, FreePart, Taken;
    if k == |prog| {
      moves := [];
    } else if prog[k].Sent? {
      moves := InOrderCanFinish(c, prog, k + 1);
    } else {
      var m := NextMove(c, prog, k);
      assert Unfinished(prog, k) == {};
      var rest := InOrderCanFinish(c, Moved(c, prog, m), k);
      moves := [m] + rest;
      assert moves[1..] == rest;
    }
  }

  /** The files before the m-th are through, but for those kept back; the others are not started. */
  function Kept(n: nat, back: set<nat>, m: nat): seq<Progress> {
    seq(n, i requires 0 <= i < n => if i < m && i !in back then Sent else Unsent)
  }

  /** As long as there are few, files can be kept back while the others before the m-th are sent. */
  lemma {:induction false} OthersFirst(c: Parcel, prog: seq<Progress>, k: nat, back: set<nat>, m: nat, rest: seq<Move>)
    returns (moves: seq<Move>)
    requires c.root.Folder? && |prog| == |c.L().files| == |c.ids| && k <= m <= |prog| && |back| < Senders.TREE_WINDOW
    requires forall i :: 0 <= i < |prog| && i != k ==> prog[i] == Kept(|prog|, back, k)[i]
    requires k < m && k !in back ==> prog[k].Sending? ==> prog[k].sent <= |c.L().files[k].content|
    requires k < |prog| && (k == m || k in back) ==> prog[k].Unsent?
    requires SendsAll(c, Kept(|prog|, back, m), rest) && InPlanOrder(c, Kept(|prog|, back, m), rest)
    requires !ClashFree(c, Kept(|prog|, back, m), rest)
    ensures SendsAll(c, prog, moves) && InPlanOrder(c, prog, moves) && !ClashFree(c, prog, moves)
    decreases m - k, if k < |prog| then Left(c, prog, k) else 0
  {
    hide List, FreePart, Taken;
    if k == m {
      assert prog == Kept(|prog|, back, m);
      moves := rest;
    } else if k in back || prog[k].Sent? {
      moves := OthersFirst(c, prog, k + 1, back, m, rest);
    } else {
      var move := NextMove(c, prog, k);
      FewUnfinished(prog, k, back);
      var more := OthersFirst(c, Moved(c, prog, move), k, back, m, rest);
      moves := [move] + more;
      assert moves[1..] == more;
    }
  }

  lemma FewUnfinished(prog: seq<Progress>, k: nat, back: set<nat>)
    requires |back| < Senders.TREE_WINDOW && forall i :: 0 <= i < k && i < |prog| && i !in back ==> prog[i].Sent?
    ensures |Unfinished(prog, k)| < Senders.TREE_WINDOW
  {
    assert back == Unfinished(prog, k) + (back - Unfinished(prog, k));
  }

  /** File j is where i's temporary file will be. */
  predicate InTheWay(c: Parcel, i: nat, j: nat)
    requires c.root.Folder?
  {
    i < |c.L().files| && j < |c.L().files| && c.L().files[j].path == Spot(c, c.L().files[i].path)
  }

  /** File j is where i's temporary file will be while k's temporary file is at its spot. */
  predicate SecondInTheWay(c: Parcel, i: nat, k: nat, j: nat)
    requires c.root.Folder?
  {
    && i < |c.L().files| && k < |c.L().files| && j < |c.L().files| && i != k && k != j
    && c.L().files[j].path == FreePart((set d | d in c.L().dirs) + {Spot(c, c.L().files[k].path)}, c.L().files[i].path)
  }

  lemma SpotNoDir(c: Parcel, p: Path)
    requires c.root.Folder? && p != []
    ensures Spot(c, p) !in c.L().dirs && Spot(c, p) != p
  {
    hide List, FreePart;
    FreePartPlace((set d | d in c.L().dirs), p);
  }

  lemma NoFileIsDir(c: Parcel, j: nat)
    requires Good(c) && j < |c.L().files|
    ensures c.L().files[j].path !in c.L().dirs
  {
    hide Good, List, Sendable;
    FileFacts(c, j);
    if c.L().files[j].path in c.L().dirs { DirFacts(c, c.L().files[j].path); }
  }

  /** The path of a file that is not started is not taken, unless by a temporary file. */
  lemma NotTaken(c: Parcel, prog: seq<Progress>, j: nat)
    requires Good(c) && |prog| == |c.L().files| && j < |prog| && prog[j].Unsent?
    requires forall i :: 0 <= i < |prog| && prog[i].Sending? ==> prog[i].part != c.L().files[j].path
    ensures c.L().files[j].path !in Taken(c, prog)
  {
    hide Good, List, Sendable, FileAt;
    GoodFolder(c);
    NoFileIsDir(c, j);
    forall i | 0 <= i < |prog| && prog[i].Sent? ensures c.L().files[i].path != c.L().files[j].path {
      if i < j { PathsDistinct(c, i, j); } else { PathsDistinct(c, j, i); }
    }
  }

  /** The end of the moves: i is opened beside its temporary file's place, which j has, and j is opened next. */
  lemma OpensBoth(c: Parcel, prog: seq<Progress>, i: nat, j: nat) returns (rest: seq<Move>)
    requires Good(c) && |prog| == |c.L().files| == |c.ids| && i < |prog| && j < |prog| && i != j
    requires prog[i].Unsent? && prog[j].Unsent? && FreePart(Taken(c, prog), c.L().files[i].path) == c.L().files[j].path
    requires |Unfinished(prog, i)| < Senders.TREE_WINDOW && |Unfinished(prog, j)| < Senders.TREE_WINDOW
    requires forall k :: 0 <= k < |prog| && prog[k].Sending? ==> prog[k].sent <= |c.L().files[k].content|
    ensures SendsAll(c, prog, rest) && InPlanOrder(c, prog, rest) && !ClashFree(c, prog, rest)
  {
    hide Good, List, FreePart, Taken;
    GoodFolder(c);
    var one := Moved(c, prog, Open(i));
    assert Unfinished(one, j) == Unfinished(prog, j);
    var two := Moved(c, one, Open(j));
    var more := InOrderCanFinish(c, two, 0);
    var last := [Open(j)] + more;
    assert last[1..] == more;
    rest := [Open(i)] + last;
    assert rest[1..] == last;
    assert one[i].part == c.L().files[j].path && ClashAt(c, one, Open(j));
  }

  /** If a file has the place of another file's temporary file, the sender, which starts the
      files in plan order and a few at a time, can send them so that they clash and the
      folder does not arrive as it is. */
  lemma ClashBreaks(c: Parcel, s: State, i: nat, j: nat, env: Env) returns (moves: seq<Move>)
    requires Good(c) && CanBegin(c, s, env) && InTheWay(c, i, j)
    ensures SendsAll(c, NothingSent(|c.ids|), moves) && InPlanOrder(c, NothingSent(|c.ids|), moves)
    ensures !ArrivedWhole(c, s, ReceiveAll(c, s, moves, env))
  {
    hide Good, List, CanBegin, ReceiveAll, ArrivedWhole, Spot, Sendable, FileAt, Taken, FreePart;
    GoodFolder(c);
    FileFacts(c, i);
    SpotNoDir(c, c.L().files[i].path);
    var n, back := |c.ids|, {i, j};
    var prog := Kept(n, back, n);
    NotTaken(c, prog, j);
    DirsTaken(c, prog);
    SpotFree(c, Taken(c, prog), c.L().files[i].path);
    FewUnfinished(prog, i, back);
    FewUnfinished(prog, j, back);
    var rest := OpensBoth(c, prog, i, j);
    moves := OthersFirst(c, NothingSent(n), 0, back, n, rest);
    ClashNotWhole(c, s, moves, env);
  }

  lemma DirsTaken(c: Parcel, prog: seq<Progress>)
    requires c.root.Folder? && |prog| == |c.L().files|
    ensures forall d :: d in c.L().dirs ==> d in Taken(c, prog)
  {
  }

  lemma TwoKept(i: nat, k: nat, j: nat, last: nat)
    requires last in {i, k, j}
    ensures |{i, k, j} - {last}| < Senders.TREE_WINDOW
  {
    assert {i, k, j} - {last} <= if last == i then {k, j} else if last == k then {i, j} else {i, k};
  }

  /** The end of the moves: k is opened at its spot, i beside it, where j is opened next. */
  lemma OpensAll(c: Parcel, i: nat, k: nat, j: nat, last: nat) returns (rest: seq<Move>)
    requires Good(c) && |c.L().files| == |c.ids| && SecondInTheWay(c, i, k, j) && i != j
    requires last in {i, k, j} && i <= last && k <= last && j <= last
    requires forall h :: 0 <= h < |c.L().files| ==> !InTheWay(c, k, h)
    ensures var prog := Kept(|c.ids|, {i, k, j} - {last}, last);
            SendsAll(c, prog, rest) && InPlanOrder(c, prog, rest) && !ClashFree(c, prog, rest)
  {
    hide Good, List, Spot, Taken, FreePart;
    GoodFolder(c);
    var back := {i, k, j} - {last};
    var prog, spot := Kept(|c.ids|, back, last), Spot(c, c.L().files[k].path);
    TwoKept(i, k, j, last);
    FewUnfinished(prog, k, back);
    FewUnfinished(prog, i, back);
    FewUnfinished(prog, j, back);
    OpensK(c, prog, k);
    var one := Moved(c, prog, Open(k));
    assert Unfinished(one, i) == Unfinished(prog, i) && Unfinished(one, j) == Unfinished(prog, j);
    assert !InTheWay(c, k, j);
    OpensBeside(c, one, i, k, j);
    var more := OpensBoth(c, one, i, j);
    rest := [Open(k)] + more;
    assert rest[1..] == more;
  }

  lemma OpensK(c: Parcel, prog: seq<Progress>, k: nat)
    requires Good(c) && |prog| == |c.L().files| && k < |prog| && forall i :: 0 <= i < |prog| ==> !prog[i].Sending?
    requires forall h :: 0 <= h < |c.L().files| ==> !InTheWay(c, k, h)
    ensures FreePart(Taken(c, prog), c.L().files[k].path) == Spot(c, c.L().files[k].path)
  {
    hide Good, List, Spot, FreePart, Sendable, FileAt;
    GoodFolder(c);
    FileFacts(c, k);
    SpotNoDir(c, c.L().files[k].path);
    forall h | 0 <= h < |prog| && prog[h].Sent? ensures c.L().files[h].path != Spot(c, c.L().files[k].path) {
      assert !InTheWay(c, k, h);
    }
    SpotFree(c, Taken(c, prog), c.L().files[k].path);
  }

  lemma OpensBeside(c: Parcel, prog: seq<Progress>, i: nat, k: nat, j: nat)
    requires Good(c) && |prog| == |c.L().files| && SecondInTheWay(c, i, k, j) && !InTheWay(c, k, j)
    requires prog[k].Sending? && prog[k].part == Spot(c, c.L().files[k].path) && prog[j].Unsent?
    requires forall h :: 0 <= h < |prog| && h != k ==> !prog[h].Sending?
    ensures FreePart(Taken(c, prog), c.L().files[i].path) == c.L().files[j].path
  {
    hide Good, List, Spot, FreePart, Sendable, FileAt;
    GoodFolder(c);
    FileFacts(c, i);
    NotTaken(c, prog, j);
    StillFree((set d | d in c.L().dirs) + {Spot(c, c.L().files[k].path)}, Taken(c, prog), c.L().files[i].path);
  }

  lemma SecondClashes(c: Parcel, i: nat, k: nat, j: nat) returns (moves: seq<Move>)
    requires Good(c) && |c.L().files| == |c.ids| && SecondInTheWay(c, i, k, j)
    requires forall h :: 0 <= h < |c.L().files| ==> !InTheWay(c, k, h)
    ensures SendsAll(c, NothingSent(|c.ids|), moves) && InPlanOrder(c, NothingSent(|c.ids|), moves)
    ensures !ClashFree(c, NothingSent(|c.ids|), moves)
  {
    hide Good, List, Spot, InTheWay, Sendable, FileAt, SendsAll, InPlanOrder, ClashFree;
    GoodFolder(c);
    FileFacts(c, i);
    FreePartPlace((set d | d in c.L().dirs) + {Spot(c, c.L().files[k].path)}, c.L().files[i].path);
    var last := if i < k then (if k < j then j else k) else if i < j then j else i;
    TwoKept(i, k, j, last);
    var rest := OpensAll(c, i, k, j, last);
    moves := OthersFirst(c, NothingSent(|c.ids|), 0, {i, k, j} - {last}, last, rest);
  }

  /** Files whose temporary files share a spot can clash with a third one: the second of them
      to be opened gives way to where that one will be. */
  lemma SecondBreaks(c: Parcel, s: State, i: nat, k: nat, j: nat, env: Env) returns (moves: seq<Move>)
    requires Good(c) && CanBegin(c, s, env) && SecondInTheWay(c, i, k, j)
    ensures SendsAll(c, NothingSent(|c.ids|), moves) && InPlanOrder(c, NothingSent(|c.ids|), moves)
    ensures !ArrivedWhole(c, s, ReceiveAll(c, s, moves, env))
  {
    hide Good, List, CanBegin, ReceiveAll, ArrivedWhole, Spot, InTheWay, SendsAll, InPlanOrder, ClashFree;
    GoodFolder(c);
    if h :| 0 <= h < |c.L().files| && InTheWay(c, k, h) {
      moves := ClashBreaks(c, s, k, h, env);
    } else {
      moves := SecondClashes(c, i, k, j);
      ClashNotWhole(c, s, moves, env);
    }
  }

  /** A folder whose temporary files have places of their own arrives intact however the
      sender interleaves its files if and only if no file of it has the place of another
      file's temporary file. */
  lemma IntactExactly(c: Parcel, s: State, env: Env)
    requires Good(c) && SpotsApart(c) && CanBegin(c, s, env)
    ensures (forall moves :: SendsAll(c, NothingSent(|c.ids|), moves) && InPlanOrder(c, NothingSent(|c.ids|), moves) ==>
               ArrivedWhole(c, s, ReceiveAll(c, s, moves, env)))
            <==> NoneInTheWay(c)
  {
    hide Good, List, CanBegin, ReceiveAll, ArrivedWhole, SendsAll, InPlanOrder, Spot;
    GoodFolder(c);
    var prog := NothingSent(|c.ids|);
    if NoneInTheWay(c) {
      forall moves | SendsAll(c, prog, moves) ensures ArrivedWhole(c, s, ReceiveAll(c, s, moves, env)) {
        NeverClash(c, prog, moves);
        WholeExactly(c, s, moves, env);
      }
    } else {
      var f, g :| f in c.L().files && g in c.L().files && g.path == Spot(c, f.path);
      var i, j :| 0 <= i < |c.L().files| && c.L().files[i] == f && 0 <= j < |c.L().files| && c.L().files[j] == g;
      var moves := ClashBreaks(c, s, i, j, env);
    }
  }

  /** Where temporary files share a spot, more is needed: no file may be where another one's
      temporary file goes when a third one's is at its spot. */
  lemma IntactNeeds(c: Parcel, s: State, env: Env)
    requires Good(c) && CanBegin(c, s, env)
    requires forall moves ::
               SendsAll(c, NothingSent(|c.ids|), moves) && InPlanOrder(c, NothingSent(|c.ids|), moves) ==>
                 ArrivedWhole(c, s, ReceiveAll(c, s, moves, env))
    ensures NoneInTheWay(c) && forall i, k, j :: !SecondInTheWay(c, i, k, j)
  {
    hide Good, List, CanBegin, ReceiveAll, ArrivedWhole, SendsAll, InPlanOrder, Spot, SecondInTheWay;
    GoodFolder(c);
    forall f, g | f in c.L().files && g in c.L().files ensures g.path != Spot(c, f.path) {
      var i, j :| 0 <= i < |c.L().files| && c.L().files[i] == f && 0 <= j < |c.L().files| && c.L().files[j] == g;
      if InTheWay(c, i, j) { var moves := ClashBreaks(c, s, i, j, env); }
    }
    forall i, k, j ensures !SecondInTheWay(c, i, k, j) {
      if SecondInTheWay(c, i, k, j) { var moves := SecondBreaks(c, s, i, k, j, env); }
    }
  }

  /** No file is called like a temporary file of another one could ever be. */
  ghost predicate Unlike(c: Parcel)
    requires c.root.Folder?
  {
    forall f, g, taken :: f in c.L().files && g in c.L().files ==> g.path != FreePart(taken, f.path)
  }

  /** That is enough, for any order and any number of files at a time. */
  lemma {:induction false} UnlikeIsFree(c: Parcel, prog: seq<Progress>, moves: seq<Move>)
    requires c.root.Folder? && Unlike(c) && |prog| == |c.L().files| == |c.ids| && SendsAll(c, prog, moves)
    requires forall i :: 0 <= i < |prog| && prog[i].Sending? ==>
               exists taken :: prog[i].part == FreePart(taken, c.L().files[i].path)
    ensures ClashFree(c, prog, moves)
    decreases |moves|
  {
    hide List, FreePart, Taken;
    if moves != [] {
      var m := moves[0];
      forall j | 0 <= j < |prog| && prog[j].Sending? ensures prog[j].part != c.L().files[m.file].path {
        assert c.L().files[j] in c.L().files && c.L().files[m.file] in c.L().files;
      }
      var after := Moved(c, prog, m);
      forall i | 0 <= i < |after| && after[i].Sending?
        ensures exists taken :: after[i].part == FreePart(taken, c.L().files[i].path)
      {
        if m == Open(i) { assert after[i].part == FreePart(Taken(c, prog), c.L().files[i].path); }
      }
      UnlikeIsFree(c, after, moves[1..]);
    }
  }

  lemma UnlikeArrives(c: Parcel, s: State, moves: seq<Move>, env: Env)
    requires Good(c) && CanBegin(c, s, env) && Unlike(c) && SendsAll(c, NothingSent(|c.ids|), moves)
    ensures ArrivedWhole(c, s, ReceiveAll(c, s, moves, env))
  {
    hide Good, List, CanBegin, ReceiveAll, ArrivedWhole, SendsAll, Unlike;
    GoodFolder(c);
    UnlikeIsFree(c, NothingSent(|c.ids|), moves);
    WholeExactly(c, s, moves, env);
  }

  /** In general it does so if and only if no interleaving of the sender clashes. */
  lemma IntactAlways(c: Parcel, s: State, env: Env)
    requires Good(c) && CanBegin(c, s, env)
    ensures (forall moves :: SendsAll(c, NothingSent(|c.ids|), moves) && InPlanOrder(c, NothingSent(|c.ids|), moves) ==>
               ArrivedWhole(c, s, ReceiveAll(c, s, moves, env)))
            <==> (forall moves :: SendsAll(c, NothingSent(|c.ids|), moves)
                                  && InPlanOrder(c, NothingSent(|c.ids|), moves) ==>
                    ClashFree(c, NothingSent(|c.ids|), moves))
  {
    hide Good, List, CanBegin, ReceiveAll, ArrivedWhole, SendsAll, InPlanOrder, ClashFree;
    GoodFolder(c);
    forall moves | SendsAll(c, NothingSent(|c.ids|), moves)
      ensures ArrivedWhole(c, s, ReceiveAll(c, s, moves, env)) <==> ClashFree(c, NothingSent(|c.ids|), moves)
    {
      WholeExactly(c, s, moves, env);
    }
  }

  /* ---- folders without directories of such names ---- */

  /** The name of the temporary file of the file at `p`, as it is tried first. */
  function PartPath(p: Path): Path
    requires p != []
  {
    p[..|p| - 1] + [p[|p| - 1] + ".vylopart"]
  }

  lemma PartPathInjective(p: Path, q: Path)
    requires p != [] && q != [] && PartPath(p) == PartPath(q)
    ensures p == q
  {
    var x, y := PartPath(p), PartPath(q);
    assert x[..|x| - 1] == p[..|p| - 1] && y[..|y| - 1] == q[..|q| - 1];
    var a, b := x[|x| - 1], y[|y| - 1];
    assert a[..|a| - 9] == p[|p| - 1] && b[..|b| - 9] == q[|q| - 1];
    assert p == p[..|p| - 1] + [p[|p| - 1]] && q == q[..|q| - 1] + [q[|q| - 1]];
  }

  lemma PlainSpot(c: Parcel, p: Path)
    requires c.root.Folder? && p != [] && PartPath(p) !in c.L().dirs
    ensures Spot(c, p) == PartPath(p)
  {
    hide List;
    var all := set d | d in c.L().dirs;
    var dirs: Fs := map q | q in all :: Dir;
    FreeAsNamed(dirs, p[..|p| - 1], p[|p| - 1] + ".vylopart");
  }

  /** Without directories called like a temporary file: it arrives intact in every
      interleaving if and only if no file is called like another one's temporary file. */
  lemma IntactPlainly(c: Parcel, s: State, env: Env)
    requires Good(c) && CanBegin(c, s, env)
    requires forall f :: f in c.L().files && f.path != [] ==> PartPath(f.path) !in c.L().dirs
    ensures (forall moves :: SendsAll(c, NothingSent(|c.ids|), moves) && InPlanOrder(c, NothingSent(|c.ids|), moves) ==>
               ArrivedWhole(c, s, ReceiveAll(c, s, moves, env)))
            <==> forall f, g :: f in c.L().files && g in c.L().files && f.path != [] ==> g.path != PartPath(f.path)
  {
    hide Good, List, CanBegin, ReceiveAll, ArrivedWhole, SendsAll, InPlanOrder, Spot, PartPath, Sendable, FileAt;
    GoodFolder(c);
    forall i | 0 <= i < |c.L().files|
      ensures var p := c.L().files[i].path; p != [] && Spot(c, p) == PartPath(p)
    {
      FileFacts(c, i);
      assert c.L().files[i] in c.L().files;
      PlainSpot(c, c.L().files[i].path);
    }
    forall i, j | 0 <= i < j < |c.L().files| ensures Spot(c, c.L().files[i].path) != Spot(c, c.L().files[j].path) {
      PathsDistinct(c, i, j);
      if PartPath(c.L().files[i].path) == PartPath(c.L().files[j].path) {
        PartPathInjective(c.L().files[i].path, c.L().files[j].path);
      }
    }
    IntactExactly(c, s, env);
  }
}
