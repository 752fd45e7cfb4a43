/** Where everything live is on the disk: every folder has a directory of its own,
    every transfer a temporary file of its own. */
module Layout {
  import opened Basics
  import opened Disk
  import opened Receiving
  import opened Ownership
  import opened Frames
  import opened Staging
  import opened Cleanup
  import opened Footprints
  import opened Streams
  import FolderIntact
  import Names

  ghost predicate RootLaid(s: State, t: nat)
    requires t in s.trees
  {
    var root := s.trees[t].root;
    root != [] ==> |root| == |s.fileDir| + 2 && (s.trees[t].failed.None? ==> root in s.fs && s.fs[root].Dir?)
  }

  ghost predicate FileLaid(s: State, id: nat)
    requires id in s.recv
  {
    var r := s.recv[id];
    && r.part in s.fs && (s.fs[r.part] == Part(id) || s.fs[r.part].File?) && r.part != r.final
    && (r.tree.None? ==> |r.part| == |r.final| == |Base(s, r)| + 1)
  }

  ghost predicate DragLaid(s: State) {
    s.drag.Some? ==>
      && s.drag.value.dir in s.fs && s.fs[s.drag.value.dir].Dir?
      && forall x :: x in s.drag.value.done ==> |x.path| == |s.drag.value.dir| + 1
  }

  /** Folders have different directories, which are there unless the folder failed;
      transfers have different temporary files, which are there; loose files and staged
      items lie directly in their directory. */
  ghost predicate Laid(s: State) {
    && (forall t :: t in s.trees ==> RootLaid(s, t))
    && (forall t, u :: t in s.trees && u in s.trees && t != u && s.trees[t].root != [] ==>
          s.trees[t].root != s.trees[u].root)
    && (forall id :: id in s.recv ==> FileLaid(s, id))
    && (forall i, j :: i in s.recv && j in s.recv && i != j ==> s.recv[i].part != s.recv[j].part)
    && DragLaid(s)
  }

  /** The directory a new folder is given, if it is not refused and the one above can be made. */
  function ChosenRoot(s: State, m: Message, env: Env): Option<Path>
    requires m.TreeOffer?
  {
    if m.within.Some? && !s.DragIs(m.within) then None
    else
      var parent := if m.within.Some? then s.drag.value.dir else s.fileDir + [TreeStagingName(m.tree)];
      var safe, made := Names.Sanitize(m.name), MkdirAll(s.fs, parent, env);
      if safe.None? || made.None? then None else Some(FreeDirPath(made.value, parent, safe.value))
  }

  /** A new folder is given the path of a live folder. That path was unused, so it is the
      path of a failed folder whose own directory could not be made. */
  ghost predicate SharesRoot(s: State, m: Message, env: Env) {
    && m.TreeOffer? && m.tree !in s.trees && ChosenRoot(s, m, env).Some?
    && exists u :: u in s.trees && s.trees[u].root == ChosenRoot(s, m, env).value
  }

  /** Ownership, places and layout together. */
  ghost predicate Sound(s: State) { Owned(s) && Located(s) && Laid(s) }

  /* ---- what is new ---- */

  /** A transfer starts with a temporary file nobody else has. */
  ghost predicate Started(s: State, r: State, id: nat) {
    && id in r.recv
    && var t := r.recv[id];
    && t.part !in s.fs && t.part in r.fs && r.fs[t.part] == Part(id) && t.part != t.final && t.final !in r.fs
    && (t.tree.None? ==> |t.part| == |t.final| == |Base(r, t)| + 1)
  }

  lemma AcceptStarted(s: State, dir: Path, id: nat, name: string, size: nat, drag: Option<nat>, tree: Option<nat>,
                      env: Env)
    requires WellFormed(s.fs) && id !in s.recv && AcceptOffer(s, dir, id, name, size, drag, tree, env).1
    ensures var r := AcceptOffer(s, dir, id, name, size, drag, tree, env).0;
            var t := r.recv[id];
            && t.part !in s.fs && t.part in r.fs && r.fs[t.part] == Part(id) && t.final !in r.fs
            && |t.part| == |t.final| == |dir| + 1
  {
    hide BeginRecv, WellFormed, IsStaging, Names.IsClean;
    BeginRecvEffect(s.fs, dir, id, name, size, drag, tree, env);
  }

  lemma NewTransfer(s: State, m: Message, env: Env, id: nat)
    requires Owned(s) && Located(s) && id !in s.recv && id in Handle(s, m, env).recv
    ensures Offers(m) == Some(id) && Started(s, Handle(s, m, env), id)
  {
    hide Owned, Located, WellFormed, FinalizeDrag, AcceptOffer, OfferInDrag, OfferInTree, Handle;
    TransferAfter(s, m, env, id);
    LocatedTidy(s);
    match m
    case FileOffer(_, name, size) => NewPlain(s, id, name, size, env);
    case DragOffer(drag, _, name, size) => NewLoose(s, drag, id, name, size, env);
    case TreeFile(tree, _, rel, size) => NewMember(s, tree, id, rel, size, env);
  }

  lemma NewPlain(s: State, id: nat, name: string, size: nat, env: Env)
    requires WellFormed(s.fs) && id !in s.recv && id in Handle(s, FileOffer(id, name, size), env).recv
    ensures Started(s, Handle(s, FileOffer(id, name, size), env), id)
  {
    hide WellFormed, AcceptOffer;
    AcceptStarted(s, s.fileDir, id, name, size, None, None, env);
    SameFileDir(s, s.fileDir, id, name, size, None, None, env);
  }

  lemma NewLoose(s: State, drag: nat, id: nat, name: string, size: nat, env: Env)
    requires WellFormed(s.fs) && Located(s) && id !in s.recv
             && id in Handle(s, DragOffer(drag, id, name, size), env).recv
    ensures Started(s, Handle(s, DragOffer(drag, id, name, size), env), id)
  {
    hide WellFormed, Located, AcceptOffer, FinalizeDrag;
    var d := s.drag.value.(offered := s.drag.value.offered + 1);
    DragDir(s);
    AcceptStarted(s.WithDrag(d), d.dir, id, name, size, Some(drag), None, env);
    SameFileDir(s.WithDrag(d), d.dir, id, name, size, Some(drag), None, env);
  }

  lemma SameFileDir(s: State, dir: Path, id: nat, name: string, size: nat, drag: Option<nat>, tree: Option<nat>,
                    env: Env)
    ensures AcceptOffer(s, dir, id, name, size, drag, tree, env).0.fileDir == s.fileDir
  {
    hide BeginRecv;
  }

  lemma NewMember(s: State, tree: nat, id: nat, rel: string, size: nat, env: Env)
    requires WellFormed(s.fs) && id !in s.recv && id in Handle(s, TreeFile(tree, id, rel, size), env).recv
    ensures Started(s, Handle(s, TreeFile(tree, id, rel, size), env), id)
  {
    hide WellFormed, AcceptOffer, Names.SanitizeRel;
    var t := s.trees[tree].(entries := s.trees[tree].entries + 1, offered := s.trees[tree].offered + [id]);
    var path := Names.SanitizeRel(rel).value;
    var k := |path| - 1;
    AcceptStarted(s.WithTree(tree, t), t.root + path[..k], id, path[k], size, t.drag, Some(tree), env);
  }

  /** A folder is given a place where nothing was, and its directory is there unless it failed. */
  ghost predicate Rooted(s: State, r: State, tree: nat, chosen: Option<Path>) {
    && tree in r.trees
    && var t := r.trees[tree];
       if chosen.None? then t.root == []
       else
         && t.root == chosen.value && |t.root| == |s.fileDir| + 2 && t.root !in s.fs
         && (t.failed.None? ==> t.root in r.fs && r.fs[t.root].Dir?)
  }

  lemma NewTree(s: State, m: Message, env: Env, tree: nat)
    requires Owned(s) && Located(s) && tree !in s.trees && tree in Handle(s, m, env).trees
    ensures m.TreeOffer? && m.tree == tree && Rooted(s, Handle(s, m, env), tree, ChosenRoot(s, m, env))
  {
    hide Owned, Located, WellFormed, MkdirAll, FreeDirPath, Names.Sanitize, RootTree, Handle, OfferTree, ChosenRoot;
    TreeAfter(s, m, env, tree);
    LocatedTidy(s);
    NewOffered(s, tree, m.name, m.files, m.bytes, m.within, env);
    assert Handle(s, m, env) == OfferTree(s, tree, m.name, m.files, m.bytes, m.within, env) by { OfferIs(s, m, env); }
  }

  lemma OfferIs(s: State, m: Message, env: Env)
    requires m.TreeOffer?
    ensures Handle(s, m, env) == OfferTree(s, m.tree, m.name, m.files, m.bytes, m.within, env)
  {
  }

  lemma NewOffered(s: State, tree: nat, name: string, files: nat, bytes: nat, drag: Option<nat>, env: Env)
    requires Located(s) && WellFormed(s.fs) && tree !in s.trees
    ensures Rooted(s, OfferTree(s, tree, name, files, bytes, drag, env), tree,
                   ChosenRoot(s, TreeOffer(tree, name, files, bytes, drag), env))
  {
    hide Located, WellFormed, MkdirAll, FreeDirPath, Names.Sanitize, RootTree;
    if s.drag.Some? { DragDir(s); }
    var safe := Names.Sanitize(name);
    if safe.Some? && (drag.None? || s.DragIs(drag)) {
      var parent := if drag.Some? then s.drag.value.dir else s.fileDir + [TreeStagingName(tree)];
      var chosen := ChosenRoot(s, TreeOffer(tree, name, files, bytes, drag), env);
      forall s1: State, c, staging | s1.fs == s.fs && tree !in s1.trees
        ensures Rooted(s, RootTree(s1, tree, safe.value, files, bytes, drag, c, parent, staging, env), tree, chosen)
      {
        NewRoot(s, s1, tree, safe.value, files, bytes, drag, c, parent, staging, env);
      }
    }
  }

  lemma NewRoot(s: State, s1: State, tree: nat, name: string, files: nat, bytes: nat, drag: Option<nat>, counted: bool,
                parent: Path, staging: Option<Path>, env: Env)
    requires WellFormed(s.fs) && s1.fs == s.fs && tree !in s1.trees && |parent| == |s.fileDir| + 1
    ensures var made := MkdirAll(s.fs, parent, env);
            Rooted(s, RootTree(s1, tree, name, files, bytes, drag, counted, parent, staging, env), tree,
                   if made.None? then None else Some(FreeDirPath(made.value, parent, name)))
  {
    hide WellFormed, MkdirAll;
    if MkdirAll(s.fs, parent, env).Some? {
      var fs := MkdirAll(s.fs, parent, env).value;
      MkdirAllEffect(s.fs, parent, env);
      PlacementIsFresh(fs, parent, name, "");
      var root := FreeDirPath(fs, parent, name);
      if MkdirAll(fs, root, env).Some? { MkdirAllEffect(fs, root, env); }
    }
  }

  /* ---- what stays ---- */

  /** Neither a transfer that ends nor one that is finished touches `q`. */
  ghost predicate NotATransfers(s: State, m: Message, env: Env, q: Path) {
    && (forall id :: id in s.recv && id !in Handle(s, m, env).recv && !Stuck(s, m, env, id) ==> s.recv[id].part != q)
    && (Finishes(s, m, env) ==> s.recv[m.id].final != q)
  }

  lemma PrefixAt(a: Path, n: string, q: Path)
    requires a + [n] <= q
    ensures q[..|a| + 1] == a + [n] && q[|a|] == n
  {
  }

  /** A staging directory is not the top directory of another folder or of a drag. */
  lemma TopsApart(s: State, u: nat, q: Path, n: string)
    requires Located(s) && u in s.trees && s.trees[u].staging.Some? && s.trees[u].staging.value <= q
    requires s.fileDir + [n] <= q
    ensures n == TreeStagingName(u)
  {
    hide IsStaging, TidyFs, Inside, Names.IsClean;
    assert TreeLocated(s, u);
    PrefixAt(s.fileDir, TreeStagingName(u), q);
    PrefixAt(s.fileDir, n, q);
  }

  /** A drag that ends takes nothing with it that the receiver still keeps. */
  lemma DragKeepsNone(s: State, m: Message, env: Env)
    requires Sound(s) && Owned(Handle(s, m, env)) && DragEnds(s, m, Handle(s, m, env))
    ensures var r, d := Handle(s, m, env), s.drag.value.drag;
            && (forall t :: t in r.trees && r.trees[t].counted ==> r.trees[t].drag != Some(d))
            && (forall id :: id in r.recv && r.recv[id].tree.None? ==> r.recv[id].drag != Some(d))
  {
    hide Located, Laid, Handle, FileOwned, TreeOwned;
    var r, d := Handle(s, m, env), s.drag.value.drag;
    if r.drag.Some? {
      BegunEmpty(s, m, env);
      forall t | t in r.trees && r.trees[t].counted ensures r.trees[t].drag != Some(r.drag.value.drag) {
        assert t !in CountedOf(r, r.drag.value.drag);
      }
      forall id | id in r.recv && r.recv[id].tree.None? ensures r.recv[id].drag != Some(r.drag.value.drag) {
        assert id !in LooseOf(r, r.drag.value.drag);
      }
    }
    forall t | t in r.trees && r.trees[t].counted ensures r.trees[t].drag != Some(d) { OwnedByDrag(r, t, d); }
    forall id | id in r.recv && r.recv[id].tree.None? ensures r.recv[id].drag != Some(d) { LooseInDrag(r, id); }
  }

  lemma OwnedByDrag(s: State, t: nat, d: nat)
    requires Owned(s) && t in s.trees && s.trees[t].counted
    ensures s.DragIs(s.trees[t].drag)
  {
    assert TreeOwned(s, t);
  }

  lemma LooseInDrag(s: State, id: nat)
    requires Owned(s) && id in s.recv
    ensures s.recv[id].drag.Some? ==> s.DragIs(s.recv[id].drag)
  {
    assert FileOwned(s, id);
  }

  lemma BegunEmpty(s: State, m: Message, env: Env)
    requires m.DragBegin?
    ensures var r := Handle(s, m, env); r.drag.Some? ==> r.drag.value.outstanding == {} && r.drag.value.done == []
  {
    hide DiscardDrag, MkdirAll;
  }

  /** What lies in the directory of a folder that stays is not taken away. */
  lemma SparedInTree(s: State, m: Message, env: Env, t: nat, q: Path)
    requires Sound(s) && Owned(Handle(s, m, env)) && NotATransfers(s, m, env, q)
    requires t in s.trees && t in Handle(s, m, env).trees && s.trees[t].root != [] && s.trees[t].root <= q
    ensures Spared(s, m, env, q)
  {
    hide Sound, Handle;
    MemberOutside(s, m, env, t, q);
    SparedIf(s, m, env, q);
  }

  lemma SparedIf(s: State, m: Message, env: Env, q: Path)
    requires var r := Handle(s, m, env);
             Outside(s, r, q) && (DragEnds(s, m, r) ==> !(s.drag.value.dir <= q))
    ensures NotATransfers(s, m, env, q) ==> Spared(s, m, env, q)
  {
    hide Handle, Outside;
  }

  lemma OtherFolder(s: State, t: nat, u: nat, q: Path)
    requires Sound(s) && t in s.trees && u in s.trees && t != u && s.trees[t].root != [] && s.trees[t].root <= q
    ensures !InFolder(s, u, q)
  {
    hide IsStaging, Unstaged, Names.IsClean, TidyFs, Owned, FileLocated;
    assert RootLaid(s, t) && TreeLocated(s, t) && RootLaid(s, u);
    var n := TopName(t, s.trees[t].drag);
    assert s.fileDir + [n] <= q by { BelowBelow(s.fileDir + [n], s.trees[t].root, q); }
    if s.trees[u].staging.Some? && s.trees[u].staging.value <= q {
      TopsApart(s, u, q, n);
      if s.trees[t].drag.Some? { StagingNames(u, s.trees[t].drag.value); } else { StagingNames(t, u); }
    }
  }

  lemma EndedDragElsewhere(s: State, m: Message, env: Env, t: nat, q: Path)
    requires Sound(s) && Owned(Handle(s, m, env)) && DragEnds(s, m, Handle(s, m, env))
    requires t in s.trees && t in Handle(s, m, env).trees && s.trees[t].root != [] && s.trees[t].root <= q
    ensures !(s.drag.value.dir <= q)
  {
    hide IsStaging, Unstaged, Names.IsClean, TidyFs, Owned, FileLocated, Handle, Laid;
    assert TreeLocated(s, t);
    TreeAfter(s, m, env, t);
    DragKeepsNone(s, m, env);
    DragDir(s);
    var n, d := TopName(t, s.trees[t].drag), s.drag.value.drag;
    assert s.fileDir + [n] <= q by { BelowBelow(s.fileDir + [n], s.trees[t].root, q); }
    if s.drag.value.dir <= q {
      PrefixAt(s.fileDir, DragStagingName(d), q);
      PrefixAt(s.fileDir, n, q);
      if s.trees[t].drag.Some? { DragNamesDiffer(s.trees[t].drag.value, d); } else { StagingNames(t, d); }
    }
  }

  lemma DragNamesDiffer(a: nat, b: nat)
    requires DragStagingName(a) == DragStagingName(b)
    ensures a == b
  {
    assert DragStagingName(a)[11..] == Decimal(a) && DragStagingName(b)[11..] == Decimal(b);
    DecimalInjective(a, b);
  }

  /** Folder `u` failed, and there is a file where its directory would be. */
  predicate FileInstead(s: State, u: nat, p: Path)
    requires u in s.trees
  {
    s.trees[u].failed.Some? && p in s.fs && !s.fs[p].Dir?
  }

  /** What lies in the drag's directory stays while the drag goes on, except what
      belongs to a folder that ends or to a transfer. */
  lemma SparedInDrag(s: State, m: Message, env: Env, p: Path, q: Path)
    requires Sound(s) && NotATransfers(s, m, env, q) && s.drag.Some? && !DragEnds(s, m, Handle(s, m, env))
    requires s.drag.value.dir <= p && |p| == |s.drag.value.dir| + 1 && p <= q
    requires forall u :: u in s.trees && u !in Handle(s, m, env).trees ==>
               s.trees[u].root != p || (FileInstead(s, u, p) && p == q)
    ensures Spared(s, m, env, q)
  {
    hide Owned, Located, Handle;
    var r := Handle(s, m, env);
    forall u | u in s.trees && u !in r.trees
      ensures !InFolder(s, u, q)
    {
      BesideFolder(s, u, p, q);
    }
  }

  /** A place directly in the drag's directory, and what is below, is not in a folder beside it. */
  lemma BesideFolder(s: State, u: nat, p: Path, q: Path)
    requires Sound(s) && s.drag.Some? && u in s.trees && (s.trees[u].root != p || (FileInstead(s, u, p) && p == q))
    requires s.drag.value.dir <= p && |p| == |s.drag.value.dir| + 1 && p <= q
    ensures !InFolder(s, u, q)
  {
    hide WellFormed, IsStaging, Unstaged, Names.IsClean, TidyFs, Owned, FileLocated, TreeLocated;
    DragDir(s);
    assert RootLaid(s, u);
    assert q[..|p|] == p;
    if s.trees[u].staging.Some? && s.trees[u].staging.value <= q {
      BelowBelow(s.drag.value.dir, p, q);
      TopsApart(s, u, q, DragStagingName(s.drag.value.drag));
      StagingNames(u, s.drag.value.drag);
    }
  }

  lemma StagedPath(home: Path, n: string, q: Path)
    requires home + [n] <= q && IsStaging(n)
    ensures !Unstaged(q)
  {
    PrefixAt(home, n, q);
  }

  /* ---- every message ---- */

  /** A directory is not touched by transfers. */
  lemma DirNotATransfers(s: State, m: Message, env: Env, q: Path)
    requires Laid(s) && q in s.fs && s.fs[q].Dir?
    ensures NotATransfers(s, m, env, q)
  {
    hide Handle;
    forall id | id in s.recv ensures s.recv[id].part != q { assert FileLaid(s, id); }
  }

  lemma RootStays(s: State, m: Message, env: Env, t: nat)
    requires Sound(s) && Owned(Handle(s, m, env)) && t in s.trees && t in Handle(s, m, env).trees
    ensures RootLaid(Handle(s, m, env), t) && s.trees[t].root == Handle(s, m, env).trees[t].root
  {
    hide Owned, Located, Handle, Spared;
    var root := s.trees[t].root;
    TreeAfter(s, m, env, t);
    DirsSame(s, m, env);
    assert RootLaid(s, t);
    if root != [] && s.trees[t].failed.None? {
      DirNotATransfers(s, m, env, root);
      SparedInTree(s, m, env, t, root);
      HandleKeepsPath(s, m, env, root);
    }
  }

  lemma RootsStay(s: State, m: Message, env: Env)
    requires Sound(s) && Owned(Handle(s, m, env))
    ensures var r := Handle(s, m, env);
            && (forall t :: t in r.trees ==> RootLaid(r, t))
            && ((forall t, u :: t in r.trees && u in r.trees && t != u && r.trees[t].root != [] ==>
                   r.trees[t].root != r.trees[u].root)
                <==> !SharesRoot(s, m, env))
  {
    hide Owned, Located, Handle, ChosenRoot;
    var r := Handle(s, m, env);
    DirsSame(s, m, env);
    forall t | t in r.trees
      ensures RootLaid(r, t) && (t in s.trees ==> s.trees[t].root == r.trees[t].root)
      ensures t !in s.trees ==> m.TreeOffer? && m.tree == t && Rooted(s, r, t, ChosenRoot(s, m, env))
    {
      if t in s.trees { RootStays(s, m, env, t); } else { NewTree(s, m, env, t); }
    }
    if m.TreeOffer? && m.tree !in s.trees { OthersKept(s, m, env); }
  }

  /** An offer adds its folder and leaves the others alone. */
  lemma OthersKept(s: State, m: Message, env: Env)
    requires m.TreeOffer? && m.tree !in s.trees
    ensures var r := Handle(s, m, env); m.tree in r.trees && r.trees == s.trees[m.tree := r.trees[m.tree]]
  {
    hide Handle, OfferTree;
    OfferIs(s, m, env);
  }

  /** Nothing is taken away with a folder or the drag that holds a transfer that goes on. */
  lemma LiveOutside(s: State, m: Message, env: Env, id: nat)
    requires Sound(s) && Owned(Handle(s, m, env)) && id in s.recv && id in Handle(s, m, env).recv
    ensures NotATransfers(s, m, env, s.recv[id].part) ==> Spared(s, m, env, s.recv[id].part)
    ensures Outside(s, Handle(s, m, env), s.recv[id].part)
  {
    hide WellFormed, IsStaging, Names.IsClean, Handle, TidyFs, Unstaged, FilesOf, LooseOf, CountedOf, TreeLocated;
    var r, t := Handle(s, m, env), s.recv[id];
    TransferAfter(s, m, env, id);
    assert FileOwned(s, id) && FileOwned(r, id) && FileLocated(s, id) && FileLaid(s, id);
    if t.tree.Some? {
      MemberOutside(s, m, env, t.tree.value, t.part);
    } else if t.drag.Some? {
      LooseOutside(s, m, env, id);
    } else {
      PlainPathUnstaged(s, id);
      UnstagedOutside(s, m, env, t.part);
    }
    SparedIf(s, m, env, t.part);
  }

  lemma PlainPathUnstaged(s: State, id: nat)
    requires Located(s) && id in s.recv && s.recv[id].tree.None? && s.recv[id].drag.None?
    ensures Unstaged(s.recv[id].part) && Unstaged(s.recv[id].final)
  {
    hide IsStaging, TidyFs, Names.IsClean, Unstaged, Inside;
    assert FileLocated(s, id);
    InsideUnstaged(s.fileDir, s.recv[id].part);
    InsideUnstaged(s.fileDir, s.recv[id].final);
  }

  lemma MemberOutside(s: State, m: Message, env: Env, t: nat, q: Path)
    requires Sound(s) && Owned(Handle(s, m, env))
    requires t in s.trees && t in Handle(s, m, env).trees && s.trees[t].root != [] && s.trees[t].root <= q
    ensures var r := Handle(s, m, env); Outside(s, r, q) && (DragEnds(s, m, r) ==> !(s.drag.value.dir <= q))
  {
    hide Located, Laid, Owned, Handle;
    var r := Handle(s, m, env);
    forall u | u in s.trees && u !in r.trees
      ensures !InFolder(s, u, q)
    {
      OtherFolder(s, t, u, q);
    }
    if s.drag.Some? && (DragEnds(s, m, r) || r.drag.None?) { EndedDragElsewhere(s, m, env, t, q); }
  }

  lemma LooseOutside(s: State, m: Message, env: Env, id: nat)
    requires Sound(s) && Owned(Handle(s, m, env)) && id in s.recv && id in Handle(s, m, env).recv
    requires s.recv[id].tree.None? && s.recv[id].drag.Some?
    ensures var r := Handle(s, m, env); var q := s.recv[id].part;
            Outside(s, r, q) && (DragEnds(s, m, r) ==> !(s.drag.value.dir <= q))
  {
    hide Owned, Located, Laid, Handle;
    var r, q := Handle(s, m, env), s.recv[id].part;
    TransferAfter(s, m, env, id);
    LooseInDrag(s, id);
    LooseInDrag(r, id);
    forall u | u in s.trees && u !in r.trees
      ensures !InFolder(s, u, q)
    {
      LooseNotInFolder(s, id, u);
    }
    if DragEnds(s, m, r) { DragKeepsNone(s, m, env); }
  }

  lemma LooseNotInFolder(s: State, id: nat, u: nat)
    requires Sound(s) && id in s.recv && s.recv[id].tree.None? && s.recv[id].drag.Some? && u in s.trees
    ensures !InFolder(s, u, s.recv[id].part)
  {
    hide WellFormed, IsStaging, Unstaged, Names.IsClean, TidyFs, TreeLocated, Owned;
    var q := s.recv[id].part;
    LooseInDrag(s, id);
    assert FileLocated(s, id) && FileLaid(s, id) && RootLaid(s, u);
    DragDir(s);
    var n := DragStagingName(s.recv[id].drag.value);
    assert s.fileDir + [n] <= q && |q| == |s.fileDir| + 2;
    if s.trees[u].root != [] && s.trees[u].root <= q { SameLength(s.trees[u].root, q); }
    if s.trees[u].staging.Some? && s.trees[u].staging.value <= q {
      TopsApart(s, u, q, n);
      StagingNames(u, s.recv[id].drag.value);
    }
  }

  lemma SameLength(a: Path, b: Path)
    requires a <= b && |a| == |b|
    ensures a == b
  {
  }

  lemma UnstagedOutside(s: State, m: Message, env: Env, q: Path)
    requires Sound(s) && Unstaged(q)
    ensures var r := Handle(s, m, env); Outside(s, r, q) && (DragEnds(s, m, r) ==> !(s.drag.value.dir <= q))
  {
    hide WellFormed, IsStaging, Names.IsClean, Handle, TidyFs, Owned, FileLocated, Unstaged;
    forall u | u in s.trees
      ensures !InFolder(s, u, q)
    {
      assert TreeLocated(s, u);
      var n := TopName(u, s.trees[u].drag);
      StagingNames(u, u);
      if s.trees[u].drag.Some? { StagingNames(s.trees[u].drag.value, u); }
      if s.trees[u].root != [] && s.trees[u].root <= q {
        BelowBelow(s.fileDir + [n], s.trees[u].root, q);
        StagedPath(s.fileDir, n, q);
      }
      if s.trees[u].staging.Some? && s.trees[u].staging.value <= q { StagedPath(s.fileDir, n, q); }
    }
    if s.drag.Some? && s.drag.value.dir <= q {
      DragDir(s);
      StagingNames(s.drag.value.drag, 0);
      StagedPath(s.fileDir, DragStagingName(s.drag.value.drag), q);
    }
  }

  /** The temporary file of a transfer that goes on: it is as it was, unless the
      message finishes another transfer whose final path it is. */
  lemma PartStays(s: State, m: Message, env: Env, id: nat)
    requires Sound(s) && Owned(Handle(s, m, env)) && id in s.recv && id in Handle(s, m, env).recv
    ensures var r, p := Handle(s, m, env), s.recv[id].part;
            && r.recv[id].part == p && p in r.fs && (r.fs[p] == Part(id) || r.fs[p].File?)
            && r.fs[p] == if Finishes(s, m, env) && s.recv[m.id].final == p
                          then (if s.fs[s.recv[m.id].part] == Part(m.id) then File(s.recv[m.id].written)
                                else s.fs[s.recv[m.id].part])
                          else s.fs[p]
  {
    hide Owned, Located, Handle, Spared, Outside;
    var r, p := Handle(s, m, env), s.recv[id].part;
    TransferAfter(s, m, env, id);
    LiveOutside(s, m, env, id);
    assert FileLaid(s, id);
    if Finishes(s, m, env) && s.recv[m.id].final == p {
      assert FileLaid(s, m.id);
      FinishedLands(s, m, env);
    } else {
      assert NotATransfers(s, m, env, p);
      HandleKeepsPath(s, m, env, p);
    }
  }

  lemma FilesStay(s: State, m: Message, env: Env)
    requires Sound(s) && Owned(Handle(s, m, env)) && Located(Handle(s, m, env))
    ensures var r := Handle(s, m, env);
            && (forall id :: id in r.recv ==> FileLaid(r, id))
            && (forall i, j :: i in r.recv && j in r.recv && i != j ==> r.recv[i].part != r.recv[j].part)
  {
    hide Owned, Located, Handle, Base;
    var r := Handle(s, m, env);
    forall id | id in r.recv
      ensures FileLaid(r, id)
      ensures id in s.recv ==> r.recv[id].part == s.recv[id].part && r.recv[id].part in s.fs
      ensures id !in s.recv ==> Offers(m) == Some(id) && r.recv[id].part !in s.fs
    {
      if id in s.recv {
        PartStays(s, m, env, id);
        TransferAfter(s, m, env, id);
        assert FileLaid(s, id);
        if s.recv[id].tree.None? { SameBase(s, m, env, id); }
      } else {
        NewTransfer(s, m, env, id);
      }
    }
    forall i, j | i in r.recv && j in r.recv && i != j ensures r.recv[i].part != r.recv[j].part {
      if i in s.recv { assert r.recv[i].part in s.fs; }
    }
  }

  lemma SameBase(s: State, m: Message, env: Env, id: nat)
    requires id in s.recv && id in Handle(s, m, env).recv && s.recv[id].tree.None?
    ensures Base(Handle(s, m, env), Handle(s, m, env).recv[id]) == Base(s, s.recv[id])
  {
    hide Handle;
    TransferAfter(s, m, env, id);
    DirsSame(s, m, env);
  }

  lemma DragStays(s: State, m: Message, env: Env)
    requires Sound(s) && Located(Handle(s, m, env))
    ensures DragLaid(Handle(s, m, env))
  {
    hide Owned, Located, Handle, NewItem, Spared;
    var r := Handle(s, m, env);
    if r.drag.Some? {
      if m.DragBegin? {
        BegunLaid(s, m, env);
      } else {
        DragAfter(s, m, env);
        var dir := s.drag.value.dir;
        DirNotATransfers(s, m, env, dir);
        DragDirSpared(s, m, env);
        HandleKeepsPath(s, m, env, dir);
        forall x | x in r.drag.value.done ensures |x.path| == |dir| + 1 {
          if x !in s.drag.value.done { NewItemLaid(s, m, env, x); }
        }
      }
    }
  }

  lemma BegunLaid(s: State, m: Message, env: Env)
    requires Sound(s) && m.DragBegin? && Handle(s, m, env).drag.Some?
    ensures DragLaid(Handle(s, m, env))
  {
    hide DiscardDrag, MkdirAll, WellFormed, Located, Owned;
    BegunEmpty(s, m, env);
    if s.drag.Some? { DiscardLocated(s); }
    var s1 := if s.drag.Some? then DiscardDrag(s.(drag := None), s.drag.value) else s;
    LocatedTidy(s1);
    var dir := s1.fileDir + [DragStagingName(m.drag)];
    MkdirAllEffect(s1.fs, dir, env);
  }

  lemma DragDirSpared(s: State, m: Message, env: Env)
    requires Sound(s) && s.drag.Some? && Handle(s, m, env).drag.Some? && !m.DragBegin?
    requires NotATransfers(s, m, env, s.drag.value.dir)
    ensures Spared(s, m, env, s.drag.value.dir)
  {
    hide WellFormed, IsStaging, Unstaged, Names.IsClean, Handle, TidyFs, Owned, FileLocated, TreeLocated;
    var q := s.drag.value.dir;
    DragDir(s);
    forall u | u in s.trees
      ensures !InFolder(s, u, q)
    {
      assert RootLaid(s, u);
      if s.trees[u].staging.Some? && s.trees[u].staging.value <= q {
        TopsApart(s, u, q, DragStagingName(s.drag.value.drag));
        StagingNames(u, s.drag.value.drag);
      }
    }
  }

  lemma NewItemLaid(s: State, m: Message, env: Env, x: Staged)
    requires Sound(s) && s.drag.Some? && NewItem(s, m, env, x)
    ensures |x.path| == |s.drag.value.dir| + 1 && s.drag.value.dir <= x.path
  {
    hide WellFormed, IsStaging, Unstaged, Names.IsClean, Handle, TidyFs, Owned;
    DragDir(s);
    if x.folder {
      assert RootLaid(s, x.id) && TreeLocated(s, x.id);
    } else {
      assert FileLaid(s, x.id) && FileLocated(s, x.id);
    }
  }

  /** Every message keeps the layout, if and only if no folder is given the path of a
      live folder whose own directory could not be made. */
  lemma HandleKeepsSound(s: State, m: Message, env: Env)
    requires Sound(s) && FreshKind(s, m)
    ensures Sound(Handle(s, m, env)) <==> !SharesRoot(s, m, env)
  {
    hide Owned, Located, Handle, RootLaid, FileLaid, DragLaid, SharesRoot;
    HandleKeepsOwnership(s, m, env);
    HandleKeepsLocated(s, m, env);
    RootsStay(s, m, env);
    FilesStay(s, m, env);
    DragStays(s, m, env);
  }

  /** Every message respects `FreshKind` at its moment, and folders get directories of their own. */
  ghost predicate GoodRun(s: State, es: seq<Event>) {
    es == []
    || (&& GoodRun(s, es[..|es| - 1])
        && var before, e := Run(s, es[..|es| - 1]), es[|es| - 1];
           FreshKind(before, e.m) && !SharesRoot(before, e.m, e.env))
  }

  /** Only folders of one drag can come to share a path. */
  lemma SharesInDrag(s: State, m: Message, env: Env) returns (u: nat)
    requires Located(s) && SharesRoot(s, m, env)
    ensures s.DragIs(m.within) && u in s.trees && s.trees[u].drag == m.within
            && s.trees[u].root == ChosenRoot(s, m, env).value
  {
    hide IsStaging, Unstaged, Names.IsClean, TidyFs, FreeDirPath, MkdirAll, Names.Sanitize;
    u :| u in s.trees && s.trees[u].root == ChosenRoot(s, m, env).value;
    var root, n := s.trees[u].root, TopName(m.tree, m.within);
    ChosenBelow(s, m, env);
    assert TreeLocated(s, u);
    PrefixAt(s.fileDir, n, root);
    PrefixAt(s.fileDir, TopName(u, s.trees[u].drag), root);
    TopNamesDiffer(m.tree, m.within, u, s.trees[u].drag);
  }

  lemma ChosenBelow(s: State, m: Message, env: Env)
    requires Located(s) && m.TreeOffer? && ChosenRoot(s, m, env).Some?
    ensures s.fileDir + [TopName(m.tree, m.within)] <= ChosenRoot(s, m, env).value
    ensures m.within.Some? ==> s.DragIs(m.within)
  {
    hide Located, Names.Sanitize, MkdirAll;
    if m.within.Some? { DragDir(s); }
    var parent := if m.within.Some? then s.drag.value.dir else s.fileDir + [TreeStagingName(m.tree)];
    PlacementIsFresh(MkdirAll(s.fs, parent, env).value, parent, Names.Sanitize(m.name).value, "");
  }

  /** A folder's staging directory is its drag's, or its own. */
  lemma TopNamesDiffer(t: nat, a: Option<nat>, u: nat, b: Option<nat>)
    requires TopName(t, a) == TopName(u, b)
    ensures a == b && (a.None? ==> t == u)
  {
    match (a, b)
    case (Some(d), Some(e)) => DragNamesDiffer(d, e);
    case (Some(d), None) => StagingNames(u, d);
    case (None, Some(e)) => StagingNames(t, e);
    case (None, None) => StagingNames(t, u);
  }

  lemma {:induction false} RunKeepsSound(s: State, es: seq<Event>)
    requires Sound(s) && GoodRun(s, es)
    ensures Sound(Run(s, es))
  {
    hide Sound, Handle;
    if es != [] {
      RunKeepsSound(s, es[..|es| - 1]);
      HandleKeepsSound(Run(s, es[..|es| - 1]), es[|es| - 1].m, es[|es| - 1].env);
    }
  }

  /** In the middle of a run too: the layout holds all along exactly in such runs. */
  lemma {:induction false} RunSoundExactly(s: State, es: seq<Event>)
    requires Sound(s) && FreshRun(s, es)
    ensures GoodRun(s, es) <==> forall k :: 0 <= k <= |es| ==> Sound(Run(s, es[..k]))
  {
    hide Sound, Handle, SharesRoot;
    if es != [] {
      var n := |es| - 1;
      var front := es[..n];
      RunSoundExactly(s, front);
      assert es[..|es|] == es;
      assert forall k :: 0 <= k <= n ==> front[..k] == es[..k];
      if GoodRun(s, front) {
        RunKeepsSound(s, front);
        HandleKeepsSound(Run(s, front), es[n].m, es[n].env);
      }
      if forall k :: 0 <= k <= |es| ==> Sound(Run(s, es[..k])) {
        forall k | 0 <= k <= n ensures Sound(Run(s, front[..k])) { assert Sound(Run(s, es[..k])); }
        assert Sound(Run(s, es[..|es|]));
      }
    } else {
      assert es[..0] == es;
    }
  }

  /* ---- a folder whose own directory could not be made ---- */

  /** Two folders of one name in a drag; the directory of the first cannot be made, that
      of the second can. The first is kept as failed with the same path as its root, and
      when it ends the directory of the second is removed with it. */
  lemma FailedRootTakesAnother(s: State, d: nat, t: nat, u: nat, name: string, bad: Env, good: Env)
    requires s.DragIs(Some(d)) && t !in s.trees && u !in s.trees && t != u && Names.IsClean(name) && WellFormed(s.fs)
    requires var dir := s.drag.value.dir;
             && dir != [] && dir in s.fs && s.fs[dir].Dir? && dir + [name] !in s.fs
             && bad.lucky(OpMkdir(dir)) && !bad.lucky(OpMkdir(dir + [name])) && AllLucky(good)
    ensures var root := s.drag.value.dir + [name];
            var s1 := Handle(s, TreeOffer(t, name, 0, 0, Some(d)), bad);
            var s2 := Handle(s1, TreeOffer(u, name, 0, 0, Some(d)), good);
            var s3 := Handle(s2, TreeEnd(t, None), good);
            && u in s2.trees && s2.trees[u].root == root && s2.trees[u].failed == None && root in s2.fs
            && u in s3.trees && s3.trees[u] == s2.trees[u] && root !in s3.fs
  {
    hide Handle, MkdirAll, FreeDirPath, WellFormed, Names.IsClean, Names.Sanitize;
    var dir := s.drag.value.dir;
    var root := dir + [name];
    Names.CleanIsFixed(name);
    OfferedInDrag(s, d, t, name, bad);
    var s1 := Handle(s, TreeOffer(t, name, 0, 0, Some(d)), bad);
    assert Lucky(good, OpMkdir(dir)) && Lucky(good, OpMkdir(root));
    OfferedInDrag(s1, d, u, name, good);
    var s2 := Handle(s1, TreeOffer(u, name, 0, 0, Some(d)), good);
    EndedInDrag(s2, d, t, good);
  }

  /** The same two folders, the second one ending first: it is staged as complete, and the
      end of the first one takes it away while the drag goes on. */
  lemma FailedRootTakesStaged(s: State, d: nat, t: nat, u: nat, name: string, bad: Env, good: Env)
    requires s.DragIs(Some(d)) && t !in s.trees && u !in s.trees && t != u && Names.IsClean(name) && WellFormed(s.fs)
    requires var dir := s.drag.value.dir;
             && dir != [] && dir in s.fs && s.fs[dir].Dir? && dir + [name] !in s.fs
             && bad.lucky(OpMkdir(dir)) && !bad.lucky(OpMkdir(dir + [name])) && AllLucky(good)
    requires !s.drag.value.dropRequested
    ensures var s1 := Handle(s, TreeOffer(t, name, 0, 0, Some(d)), bad);
            var s2 := Handle(s1, TreeOffer(u, name, 0, 0, Some(d)), good);
            var s3 := Handle(s2, TreeEnd(u, None), good);
            var s4 := Handle(s3, TreeEnd(t, None), good);
            && SharesRoot(s1, TreeOffer(u, name, 0, 0, Some(d)), good)
            && s3.DragIs(Some(d)) && s4.DragIs(Some(d))
            && exists x :: && x in s3.drag.value.done && x in s4.drag.value.done && x.id == u && x.folder
                           && x.path in s3.fs && x.path !in s4.fs
  {
    hide Handle, MkdirAll, FreeDirPath, WellFormed, Names.IsClean, Names.Sanitize;
    var dir := s.drag.value.dir;
    var root := dir + [name];
    Names.CleanIsFixed(name);
    OfferedInDrag(s, d, t, name, bad);
    var s1 := Handle(s, TreeOffer(t, name, 0, 0, Some(d)), bad);
    assert Lucky(good, OpMkdir(dir)) && Lucky(good, OpMkdir(root));
    OfferedInDrag(s1, d, u, name, good);
    var s2 := Handle(s1, TreeOffer(u, name, 0, 0, Some(d)), good);
    assert s1.trees[t].root == ChosenRoot(s1, TreeOffer(u, name, 0, 0, Some(d)), good).value;
    StagedInDrag(s2, d, u, good);
    EndedInDrag(Handle(s2, TreeEnd(u, None), good), d, t, good);
    var tu := s2.trees[u];
    assert Staged(u, tu.name, true, tu.total, tu.root, Some(tu.(ended := true)))
        in Handle(s2, TreeEnd(u, None), good).drag.value.done;
  }

  /** A folder of a drag is offered, and gets the name it was offered under. */
  lemma OfferedInDrag(s: State, d: nat, t: nat, name: string, env: Env)
    requires s.DragIs(Some(d)) && t !in s.trees && Names.Sanitize(name) == Some(name) && WellFormed(s.fs)
    requires var dir := s.drag.value.dir;
             dir != [] && dir in s.fs && s.fs[dir].Dir? && dir + [name] !in s.fs && env.lucky(OpMkdir(dir))
    ensures var r, dir := Handle(s, TreeOffer(t, name, 0, 0, Some(d)), env), s.drag.value.dir;
            && r.DragIs(Some(d)) && r.drag.value.dir == dir && t in r.drag.value.outstanding
            && r.drag.value.dropRequested == s.drag.value.dropRequested
            && ChosenRoot(s, TreeOffer(t, name, 0, 0, Some(d)), env) == Some(dir + [name])
            && s.drag.value.outstanding <= r.drag.value.outstanding
            && t in r.trees && r.trees == s.trees[t := r.trees[t]] && r.trees[t].root == dir + [name]
            && r.trees[t].outstanding == {} && r.trees[t].drag == Some(d)
            && r.trees[t].failed.None? == env.lucky(OpMkdir(dir + [name]))
            && r.fs == if env.lucky(OpMkdir(dir + [name])) then s.fs[dir + [name] := Dir] else s.fs
  {
    hide WellFormed, Names.Sanitize, FreeDirPath, MkdirAll;
    var dir := s.drag.value.dir;
    var root, all := dir + [name], Env((_: Op) => true, env.sha);
    FolderIntact.FreeAsNamed(s.fs, dir, name);
    FolderIntact.MkdirExisting(s.fs, dir, all);
    assert root[..|root| - 1] == dir;
    FolderIntact.MkdirOne(s.fs, root, all);
    MkdirLuck(s.fs, dir, env, all);
    MkdirLuck(s.fs, root, env, all);
  }

  lemma MkdirLuck(fs: Fs, p: Path, env: Env, all: Env)
    requires all.lucky(OpMkdir(p))
    ensures MkdirAll(fs, p, env) == if env.lucky(OpMkdir(p)) then MkdirAll(fs, p, all) else None
  {
  }

  lemma EndedInDrag(s: State, d: nat, t: nat, env: Env)
    requires s.DragIs(Some(d)) && t in s.trees && s.trees[t].failed.Some? && s.trees[t].drag == Some(d)
    requires s.trees[t].root != [] && s.trees[t].outstanding == {}
    requires !s.drag.value.dropRequested || exists u :: u in s.drag.value.outstanding && u != t
    ensures var r := Handle(s, TreeEnd(t, None), env);
            && r.trees == s.trees - {t} && r.DragIs(Some(d)) && r.drag.value.done == s.drag.value.done
            && (s.trees[t].root in s.fs && s.fs[s.trees[t].root].Dir? ==> s.trees[t].root !in r.fs)
  {
    hide MkdirAll, MovePath, FreeDirPath, PlaceAll;
    var tr := s.trees[t].(ended := true);
    assert s.trees[t := tr] - {t} == s.trees - {t};
    if u :| u in s.drag.value.outstanding && u != t { assert u in s.drag.value.outstanding - {t}; }
  }

  /** A complete folder of a drag ends, and is staged. */
  lemma StagedInDrag(s: State, d: nat, u: nat, env: Env)
    requires s.DragIs(Some(d)) && u in s.trees && s.trees[u].failed.None? && s.trees[u].drag == Some(d)
    requires s.trees[u].outstanding == {} && !s.drag.value.dropRequested
    ensures var r, t := Handle(s, TreeEnd(u, None), env), s.trees[u];
            && r.trees == s.trees - {u} && r.DragIs(Some(d)) && r.fs == s.fs && !r.drag.value.dropRequested
            && r.drag.value.done
                 == s.drag.value.done + [Staged(u, t.name, true, t.total, t.root, Some(t.(ended := true)))]
  {
    hide MkdirAll, MovePath, FreeDirPath, PlaceAll;
    var tr := s.trees[u].(ended := true);
    assert s.trees[u := tr] - {u} == s.trees - {u};
  }
}
