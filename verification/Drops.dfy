/** What a drop does with the staged items: which of them are placed, where, and
    with what content. */
module Drops {
  import opened Basics
  import opened Disk
  import opened Receiving
  import opened Ownership
  import opened Walk
  import opened FolderIntact
  import Names

  function Paths(items: seq<Staged>): seq<Path> { seq(|items|, i requires 0 <= i < |items| => items[i].path) }

  /** The items that are on disk and whose place no earlier item has. */
  function Movable(fs: Fs, items: seq<Staged>): seq<Staged> {
    if items == [] then []
    else
      var front, x := items[..|items| - 1], items[|items| - 1];
      if x.path in fs && x.path !in Paths(front) then Movable(fs, front) + [x] else Movable(fs, front)
  }

  /** All of `src` in `fs` is at `dst` in `r`, and nothing else. */
  ghost predicate Arrived(fs: Fs, r: Fs, src: Path, dst: Path) {
    forall p: Path :: (dst + p in r <==> src + p in fs) && (src + p in fs ==> r[dst + p] == fs[src + p])
  }

  ghost predicate ItemPlaced(fs: Fs, r: Fs, dest: Path, x: Staged, p: Placed) {
    && p.id == x.id && p.folder == x.folder && p.record == x.record
    && dest <= p.path && |p.path| == |dest| + 1 && p.path !in fs
    && x.path in fs && Arrived(fs, r, x.path, p.path)
  }

  /** `xs` were placed below `dest`, each whole and each under a name of its own. */
  ghost predicate AllPlaced(fs: Fs, r: Fs, dest: Path, xs: seq<Staged>, ps: seq<Placed>) {
    && |ps| == |xs|
    && (forall i :: 0 <= i < |xs| ==> ItemPlaced(fs, r, dest, xs[i], ps[i]))
    && (forall i, j :: 0 <= i < j < |ps| ==> ps[i].path != ps[j].path)
  }

  /** Items lie directly in the drag's directory. */
  predicate InDragDir(dir: Path, items: seq<Staged>) {
    forall i :: 0 <= i < |items| ==> dir <= items[i].path && |items[i].path| == |dir| + 1
  }

  /** The disk while the items are being placed: of the drag's directory, what was
      not moved yet is still there; everything elsewhere is untouched. */
  ghost predicate Placing(fs: Fs, r: Fs, dir: Path, dest: Path, items: seq<Staged>) {
    && WellFormed(r) && IsDirOrRoot(r, dest)
    && (forall q :: Below(dir, q) ==>
          (q in r <==> q in fs && q[..|dir| + 1] !in Paths(items)) && (q in r ==> r[q] == fs[q]))
    && (forall q :: q in fs && !Below(dir, q) ==> q in r && r[q] == fs[q])
  }

  predicate Below(dir: Path, q: Path) { dir <= q && |q| > |dir| }

  /** A place below `dest` that is unused has nothing to do with a directory that
      exists and does not hold `dest`. */
  lemma PlacesApart(fs: Fs, dir: Path, dest: Path, place: Path)
    requires WellFormed(fs) && dir in fs && !(dir <= dest) && dest <= place && |place| == |dest| + 1 && place !in fs
    ensures !(place <= dir) && !(dir <= place)
    ensures forall p :: !(dir <= place + p)
  {
    NothingBelowAbsent(fs, place, dir);
    assert place[..|dest|] == dest;
    forall p: Path | dir <= place + p ensures dir <= place || place <= dir { Comparable(dir, place, p); }
  }

  lemma Comparable(a: Path, b: Path, p: Path)
    requires a <= b + p
    ensures a <= b || b <= a
  {
    if |a| <= |b| { assert (b + p)[..|a|] == b[..|a|]; } else { assert a[..|b|] == b; }
  }

  /* ---- placing one more item ---- */

  lemma PrefixTrans(a: Path, b: Path, c: Path)
    requires a <= b && b <= c
    ensures a <= c
  {
    assert c[..|a|] == b[..|a|] == a;
  }

  lemma CommonPrefix(a: Path, b: Path, c: Path)
    requires a <= c && b <= c && |a| <= |b|
    ensures a <= b
  {
    assert b[..|a|] == c[..|a|] == a;
  }

  /** `x` is still at its place in the drag's directory and `q` is an unused name below `dest`. */
  ghost predicate Ready(fs: Fs, r: Fs, dir: Path, dest: Path, front: seq<Staged>, x: Staged, q: Path) {
    && WellFormed(fs) && Placing(fs, r, dir, dest, front) && !(dir <= dest)
    && dir <= x.path && |x.path| == |dir| + 1 && x.path in fs && x.path !in Paths(front)
    && dest <= q && |q| == |dest| + 1 && q !in r
  }

  lemma ReadyFacts(fs: Fs, r: Fs, dir: Path, dest: Path, front: seq<Staged>, x: Staged, q: Path)
    requires Ready(fs, r, dir, dest, front, x, q)
    ensures x.path in r && q !in fs && HasParent(r, q) && WellFormed(r) && dir in fs
    ensures !(q <= dir) && !(dir <= q) && forall p :: !(dir <= q + p)
    ensures !(x.path <= q) && !(x.path <= dest)
  {
    hide WellFormed;
    var src := x.path;
    assert src[..|dir| + 1] == src;
    AncestorsAreDirs(fs, src);
    assert src[..|dir|] == dir;
    if dir <= q && |q| > |dir| { CommonPrefix(dir, dest, q); assert false; }
    PlacesApart(fs, dir, dest, q);
    assert q[..|q| - 1] == dest;
    if src <= dest { PrefixTrans(dir, src, dest); }
    if src <= q { PrefixTrans(dir, src, q); }
  }

  lemma Movement(fs: Fs, r: Fs, dir: Path, dest: Path, front: seq<Staged>, x: Staged, q: Path, env: Env)
    requires Ready(fs, r, dir, dest, front, x, q) && AllLucky(env)
    ensures MovePath(r, x.path, q, env).Some? && WellFormed(MovePath(r, x.path, q, env).value)
  {
    hide WellFormed, Placing;
    ReadyFacts(fs, r, dir, dest, front, x, q);
    assert Lucky(env, OpRename(x.path, q));
    MoveDefined(r, x.path, q, env);
    MoveWellFormed(r, x.path, q, env);
  }

  lemma MoveDefined(fs: Fs, src: Path, dst: Path, env: Env)
    requires env.lucky(OpRename(src, dst)) && src in fs && HasParent(fs, dst) && dst !in fs && !(src <= dst)
    ensures MovePath(fs, src, dst, env).Some?
  {
  }

  /** An item that is still there is moved whole. */
  lemma MoveArrives(fs: Fs, r: Fs, dir: Path, dest: Path, front: seq<Staged>, x: Staged, q: Path, env: Env)
    requires Ready(fs, r, dir, dest, front, x, q) && MovePath(r, x.path, q, env).Some?
    ensures Arrived(fs, MovePath(r, x.path, q, env).value, x.path, q)
  {
    hide WellFormed, MovePath;
    var src, m := x.path, MovePath(r, x.path, q, env).value;
    ReadyFacts(fs, r, dir, dest, front, x, q);
    MoveContents(r, src, q, env);
    forall p ensures (q + p in m <==> src + p in fs) && (src + p in fs ==> m[q + p] == fs[src + p]) {
      assert (q + p)[|q|..] == p && (src + p)[|src|..] == p && (src + p)[..|dir| + 1] == src;
      assert dir <= src + p && src <= src + p && q <= q + p;
    }
  }

  lemma BelowTarget(fs: Fs, r: Fs, dir: Path, dest: Path, front: seq<Staged>, x: Staged, q: Path, k: Path)
    requires Ready(fs, r, dir, dest, front, x, q)
    ensures Below(dir, k) ==> !(q <= k)
    ensures x.path <= k ==> Below(dir, k)
    ensures Below(dir, k) ==> (x.path <= k <==> k[..|dir| + 1] == x.path)
  {
    hide WellFormed, Placing;
    ReadyFacts(fs, r, dir, dest, front, x, q);
    if x.path <= k { PrefixTrans(dir, x.path, k); }
    if Below(dir, k) && q <= k { if |q| <= |dir| { CommonPrefix(q, dir, k); } else { CommonPrefix(dir, q, k); } }
  }

  lemma MovePlacing(fs: Fs, r: Fs, dir: Path, dest: Path, front: seq<Staged>, x: Staged, q: Path, env: Env)
    requires Ready(fs, r, dir, dest, front, x, q) && MovePath(r, x.path, q, env).Some?
             && WellFormed(MovePath(r, x.path, q, env).value)
    ensures var m := MovePath(r, x.path, q, env).value;
            && Placing(fs, m, dir, dest, front + [x])
            && (forall p :: !(x.path <= p) && !(q <= p) ==> (p in m <==> p in r) && (p in r ==> m[p] == r[p]))
  {
    hide WellFormed, MovePath, Ready;
    var src, m := x.path, MovePath(r, x.path, q, env).value;
    ReadyFacts(fs, r, dir, dest, front, x, q);
    forall k ensures !(q <= k) ==> (k in m <==> k in r && !(src <= k)) && (k in m ==> m[k] == r[k]) {
      MovedElsewhere(r, src, q, k, env);
    }
    DestStays(fs, r, m, dir, dest, front, x, q);
    forall k | Below(dir, k)
      ensures k in m <==> k in fs && k[..|dir| + 1] !in Paths(front + [x])
      ensures k in m ==> m[k] == fs[k]
    {
      BelowTarget(fs, r, dir, dest, front, x, q, k);
      StagedBelow(fs, r, dir, dest, front, x, q, k);
    }
    forall k | k in fs && !Below(dir, k) ensures k in m && m[k] == fs[k] {
      BelowTarget(fs, r, dir, dest, front, x, q, k);
      StagedBeside(fs, r, dir, dest, front, x, q, k);
    }
  }

  lemma MovedElsewhere(r: Fs, src: Path, q: Path, k: Path, env: Env)
    requires WellFormed(r) && MovePath(r, src, q, env).Some?
    ensures var m := MovePath(r, src, q, env).value;
            !(q <= k) ==> (k in m <==> k in r && !(src <= k)) && (k in m ==> m[k] == r[k])
  {
    hide WellFormed, MovePath;
    MoveContents(r, src, q, env);
  }

  lemma DestStays(fs: Fs, r: Fs, m: Fs, dir: Path, dest: Path, front: seq<Staged>, x: Staged, q: Path)
    requires Ready(fs, r, dir, dest, front, x, q)
    requires forall k :: !(q <= k) ==> (k in m <==> k in r && !(x.path <= k)) && (k in m ==> m[k] == r[k])
    ensures IsDirOrRoot(m, dest)
  {
    hide WellFormed;
    ReadyFacts(fs, r, dir, dest, front, x, q);
  }

  lemma StagedBelow(fs: Fs, r: Fs, dir: Path, dest: Path, front: seq<Staged>, x: Staged, q: Path, k: Path)
    requires Ready(fs, r, dir, dest, front, x, q) && Below(dir, k)
    ensures k in r <==> k in fs && k[..|dir| + 1] !in Paths(front)
    ensures k in r ==> r[k] == fs[k]
    ensures k[..|dir| + 1] in Paths(front + [x]) <==> k[..|dir| + 1] in Paths(front) || k[..|dir| + 1] == x.path
  {
    hide WellFormed;
    assert Paths(front + [x]) == Paths(front) + [x.path];
  }

  lemma StagedBeside(fs: Fs, r: Fs, dir: Path, dest: Path, front: seq<Staged>, x: Staged, q: Path, k: Path)
    requires Ready(fs, r, dir, dest, front, x, q) && k in fs && !Below(dir, k)
    ensures k in r && r[k] == fs[k] && !(q <= k)
  {
    hide WellFormed;
    ReadyFacts(fs, r, dir, dest, front, x, q);
    if q <= k { FreshBelow(fs, q, k); }
  }

  lemma FreshBelow(fs: Fs, q: Path, k: Path)
    requires WellFormed(fs) && q !in fs && q != [] && k in fs
    ensures !(q <= k)
  {
    hide WellFormed;
    NothingBelowAbsent(fs, q, k);
  }

  /** An item that is gone, or whose place an earlier item had, changes nothing. */
  lemma NotThere(fs: Fs, r: Fs, dir: Path, dest: Path, front: seq<Staged>, x: Staged)
    requires WellFormed(fs) && Placing(fs, r, dir, dest, front) && dir <= x.path && |x.path| == |dir| + 1
    requires !(x.path in fs && x.path !in Paths(front))
    ensures x.path !in r && Placing(fs, r, dir, dest, front + [x])
  {
    hide WellFormed;
    var src := x.path;
    assert src[..|dir| + 1] == src;
    assert Paths(front + [x]) == Paths(front) + [src];
    forall k | Below(dir, k) && k in r ensures k[..|dir| + 1] != src {
      if k[..|dir| + 1] == src && src !in fs { NothingBelowAbsent(fs, src, k); }
    }
  }

  /** Items placed earlier are not disturbed. */
  lemma EarlierStays(fs: Fs, r: Fs, m: Fs, dir: Path, dest: Path, xs: seq<Staged>, ps: seq<Placed>, src: Path, q: Path)
    requires WellFormed(fs) && dir in fs && !(dir <= dest) && AllPlaced(fs, r, dest, xs, ps)
    requires dir <= src && q !in r && |q| == |dest| + 1
    requires forall p :: !(src <= p) && !(q <= p) ==> (p in m <==> p in r) && (p in r ==> m[p] == r[p])
    ensures AllPlaced(fs, m, dest, xs, ps)
    ensures forall i :: 0 <= i < |ps| ==> ps[i].path != q
  {
    hide WellFormed;
    forall i | 0 <= i < |xs| ensures ItemPlaced(fs, m, dest, xs[i], ps[i]) && ps[i].path != q {
      assert ItemPlaced(fs, r, dest, xs[i], ps[i]);
      var d := ps[i].path;
      assert xs[i].path + [] == xs[i].path && d + [] == d;
      PlacesApart(fs, dir, dest, d);
      forall p: Path ensures !(src <= d + p) && !(q <= d + p) {
        if src <= d + p { PrefixTrans(dir, src, d + p); }
        assert (d + p)[..|d|] == d;
        assert (q <= d + p) == ((d + p)[..|q|] == q);
      }
    }
  }

  lemma TargetIsFree(r: Fs, dest: Path, x: Staged)
    ensures var q := if x.folder then FreeDirPath(r, dest, x.name) else FreeFilePath(r, dest, x.name);
            dest <= q && |q| == |dest| + 1 && q !in r
  {
    var (stem, ext) := SplitExt(x.name);
    PlacementIsFresh(r, dest, stem, ext);
    PlacementIsFresh(r, dest, x.name, "");
  }

  lemma {:induction false} PlaceAllPlaces(fs: Fs, items: seq<Staged>, dir: Path, dest: Path, env: Env)
    requires WellFormed(fs) && IsDirOrRoot(fs, dest) && !(dir <= dest) && InDragDir(dir, items) && AllLucky(env)
    ensures var (r, ps) := PlaceAll(fs, items, dest, env);
            Placing(fs, r, dir, dest, items) && AllPlaced(fs, r, dest, Movable(fs, items), ps)
  {
    hide WellFormed, MovePath, FreeDirPath, FreeFilePath, Arrived;
    if items == [] {
    } else {
      var front, x := items[..|items| - 1], items[|items| - 1];
      assert items == front + [x];
      assert InDragDir(dir, front);
      PlaceAllPlaces(fs, front, dir, dest, env);
      var (r, ps) := PlaceAll(fs, front, dest, env);
      var q := if x.folder then FreeDirPath(r, dest, x.name) else FreeFilePath(r, dest, x.name);
      if x.path in fs && x.path !in Paths(front) {
        TargetIsFree(r, dest, x);
        MovedOne(fs, r, ps, dir, dest, front, x, q, env);
      } else {
        NotThere(fs, r, dir, dest, front, x);
        NoMove(r, x.path, q, env);
      }
    }
  }

  lemma NoMove(fs: Fs, src: Path, dst: Path, env: Env)
    requires src !in fs
    ensures MovePath(fs, src, dst, env).None?
  {
  }

  lemma MovedOne(fs: Fs, r: Fs, ps: seq<Placed>, dir: Path, dest: Path, front: seq<Staged>, x: Staged, q: Path,
                 env: Env)
    requires Ready(fs, r, dir, dest, front, x, q) && AllLucky(env) && AllPlaced(fs, r, dest, Movable(fs, front), ps)
    ensures MovePath(r, x.path, q, env).Some?
    ensures var m := MovePath(r, x.path, q, env).value;
            && Placing(fs, m, dir, dest, front + [x])
            && AllPlaced(fs, m, dest, Movable(fs, front) + [x], ps + [Placed(x.id, x.folder, q, x.record)])
  {
    hide WellFormed, MovePath, Placing, Arrived;
    Movement(fs, r, dir, dest, front, x, q, env);
    MoveArrives(fs, r, dir, dest, front, x, q, env);
    MovePlacing(fs, r, dir, dest, front, x, q, env);
    ReadyFacts(fs, r, dir, dest, front, x, q);
    EarlierStays(fs, r, MovePath(r, x.path, q, env).value, dir, dest, Movable(fs, front), ps, x.path, q);
  }

  /* ---- which items are placed ---- */

  predicate PathsDiffer(items: seq<Staged>) {
    forall i, j :: 0 <= i < j < |items| ==> items[i].path != items[j].path
  }

  predicate AllThere(fs: Fs, items: seq<Staged>) {
    forall i :: 0 <= i < |items| ==> items[i].path in fs
  }

  /** One more item. */
  lemma OneMore(fs: Fs, front: seq<Staged>, x: Staged)
    ensures AllThere(fs, front + [x]) <==> AllThere(fs, front) && x.path in fs
    ensures PathsDiffer(front + [x]) <==> PathsDiffer(front) && x.path !in Paths(front)
  {
    var items := front + [x];
    assert items[|front|] == x && forall i :: 0 <= i < |front| ==> items[i] == front[i];
    if PathsDiffer(items) {
      forall i | 0 <= i < |front| ensures front[i].path != x.path { assert items[i].path != items[|front|].path; }
    }
    if x.path !in Paths(front) {
      forall i | 0 <= i < |front| ensures front[i].path != x.path { assert Paths(front)[i] == front[i].path; }
    }
  }

  lemma {:induction false} AllMovable(fs: Fs, items: seq<Staged>)
    ensures |Movable(fs, items)| <= |items|
    ensures |Movable(fs, items)| == |items| <==> AllThere(fs, items) && PathsDiffer(items)
    ensures |Movable(fs, items)| == |items| ==> Movable(fs, items) == items
  {
    if items != [] {
      hide AllThere, PathsDiffer;
      var front, x := items[..|items| - 1], items[|items| - 1];
      AllMovable(fs, front);
      assert front + [x] == items;
      OneMore(fs, front, x);
    }
  }

  /** Nothing stands in the way of a directory at `p`. */
  predicate CanMake(fs: Fs, p: Path) { forall q :: q in Ancestors(p) && q in fs ==> fs[q].Dir? }

  /** When a drop completes and the disk cooperates, exactly the staged items that
      are there and whose place no earlier item has are placed: each once, whole,
      and under an unused name of its own. So everything is placed if and only if
      all items are there and no two of them share a place. If the directory to
      drop into cannot be made, nothing is. */
  lemma DropPlaces(s: State, env: Env) returns (placed: seq<Placed>)
    requires s.drag.Some? && s.drag.value.dropRequested && s.drag.value.Settled() && AllLucky(env)
    requires WellFormed(s.fs) && !(s.drag.value.dir <= s.DropDir()) && InDragDir(s.drag.value.dir, s.drag.value.done)
    ensures var items, r := s.drag.value.done, FinalizeDrag(s, env);
            && r.placed == s.placed + placed && r.drag == None
            && (if CanMake(s.fs, s.DropDir()) then AllPlaced(s.fs, r.fs, s.DropDir(), Movable(s.fs, items), placed)
                else placed == [])
            && (CanMake(s.fs, s.DropDir()) ==>
                  && (|placed| == |items| <==> AllThere(s.fs, items) && PathsDiffer(items))
                  && (AllThere(s.fs, items) && PathsDiffer(items) ==>
                        AllPlaced(s.fs, r.fs, s.DropDir(), items, placed)))
  {
    hide WellFormed, PlaceAll, MkdirAll, RemoveDir, Movable, AllPlaced, AllThere, PathsDiffer;
    var items, dir, dest := s.drag.value.done, s.drag.value.dir, s.DropDir();
    MadeIfCan(s.fs, dest, env);
    if CanMake(s.fs, dest) {
      var fs1 := MkdirAll(s.fs, dest, env).value;
      placed := PlaceAll(fs1, items, dest, env).1;
      MadeBeside(s.fs, dir, dest, env);
      PlacesFrom(s.fs, fs1, items, dir, dest, env);
    } else {
      placed := PlaceAll(s.fs, items, dest, env).1;
      NothingPlaced(s.fs, items, dest, env);
    }
  }

  lemma MadeIfCan(fs: Fs, p: Path, env: Env)
    requires AllLucky(env)
    ensures MkdirAll(fs, p, env).Some? <==> CanMake(fs, p)
  {
    assert Lucky(env, OpMkdir(p));
  }

  /** Making the directory to drop into changes nothing in the drag's directory. */
  lemma MadeBeside(fs: Fs, dir: Path, dest: Path, env: Env)
    requires WellFormed(fs) && MkdirAll(fs, dest, env).Some? && !(dir <= dest)
    ensures var fs1 := MkdirAll(fs, dest, env).value;
            && WellFormed(fs1) && IsDirOrRoot(fs1, dest)
            && (forall q :: q in fs ==> q in fs1 && fs1[q] == fs[q])
            && (forall q :: dir <= q ==> (q in fs1 <==> q in fs))
  {
    hide MkdirAll, WellFormed;
    MkdirAllEffect(fs, dest, env);
    var fs1 := MkdirAll(fs, dest, env).value;
    forall q | dir <= q && q in fs1 ensures q in fs {
      if q !in fs { PrefixTrans(dir, q, dest); }
    }
  }

  /** If some ancestor of the directory to drop into is a file, nothing can be moved there. */
  lemma {:induction false} NothingPlaced(fs: Fs, items: seq<Staged>, dest: Path, env: Env)
    requires WellFormed(fs) && !CanMake(fs, dest)
    ensures PlaceAll(fs, items, dest, env) == (fs, [])
  {
    hide WellFormed;
    if items != [] {
      NothingPlaced(fs, items[..|items| - 1], dest, env);
      var x := items[|items| - 1];
      TargetIsFree(fs, dest, x);
      var q := if x.folder then FreeDirPath(fs, dest, x.name) else FreeFilePath(fs, dest, x.name);
      assert q[..|q| - 1] == dest;
      NoParent(fs, dest);
    }
  }

  lemma NoParent(fs: Fs, dest: Path)
    requires WellFormed(fs) && !CanMake(fs, dest)
    ensures !IsDirOrRoot(fs, dest)
  {
    if IsDirOrRoot(fs, dest) {
      forall q | q in Ancestors(dest) && q in fs ensures fs[q].Dir? {
        assert q == dest[..|q|];
        if q != dest { AncestorsAreDirs(fs, dest); }
      }
    }
  }

  /** The drop, from the disk with the directory made. */
  lemma PlacesFrom(fs: Fs, fs1: Fs, items: seq<Staged>, dir: Path, dest: Path, env: Env)
    requires WellFormed(fs) && WellFormed(fs1) && IsDirOrRoot(fs1, dest) && !(dir <= dest) && InDragDir(dir, items)
    requires AllLucky(env) && (forall q :: q in fs ==> q in fs1 && fs1[q] == fs[q])
    requires forall q :: dir <= q ==> (q in fs1 <==> q in fs)
    ensures var (r, placed) := PlaceAll(fs1, items, dest, env);
            && AllPlaced(fs, RemoveDir(r, dir), dest, Movable(fs, items), placed)
            && (|placed| == |items| <==> AllThere(fs, items) && PathsDiffer(items))
            && (AllThere(fs, items) && PathsDiffer(items) ==> AllPlaced(fs, RemoveDir(r, dir), dest, items, placed))
  {
    hide WellFormed, PlaceAll, RemoveDir, Movable, AllPlaced, AllThere, PathsDiffer;
    var (r, placed) := PlaceAll(fs1, items, dest, env);
    PlaceAllPlaces(fs1, items, dir, dest, env);
    AllMovable(fs, items);
    SameMovable(fs, fs1, items, dir);
    var xs := Movable(fs, items);
    PlacedSize(fs1, r, dest, xs, placed);
    if |placed| > 0 {
      DirThere(fs1, r, dir, dest, items, xs, placed);
      RemovedBeside(fs1, r, dir, dest, xs, placed);
    } else {
      NonePlaced(fs1, r, RemoveDir(r, dir), dest, xs, placed);
    }
    MovableFrom(fs, dir, items);
    SamePlacing(fs, fs1, RemoveDir(r, dir), dir, dest, xs, placed);
  }

  lemma {:induction false} SameMovable(fs: Fs, fs1: Fs, items: seq<Staged>, dir: Path)
    requires InDragDir(dir, items) && forall q :: dir <= q ==> (q in fs1 <==> q in fs)
    ensures Movable(fs, items) == Movable(fs1, items)
  {
    if items != [] { SameMovable(fs, fs1, items[..|items| - 1], dir); }
  }

  /** What was moved from `fs1` was moved from `fs`, which is the same in the drag's directory. */
  lemma SamePlacing(fs: Fs, fs1: Fs, r: Fs, dir: Path, dest: Path, xs: seq<Staged>, ps: seq<Placed>)
    requires InDragDir(dir, xs) && AllPlaced(fs1, r, dest, xs, ps)
    requires forall q :: q in fs ==> q in fs1 && fs1[q] == fs[q]
    requires forall q :: dir <= q ==> (q in fs1 <==> q in fs)
    ensures AllPlaced(fs, r, dest, xs, ps)
  {
    forall i | 0 <= i < |xs| ensures ItemPlaced(fs, r, dest, xs[i], ps[i]) {
      assert ItemPlaced(fs1, r, dest, xs[i], ps[i]);
      forall p: Path ensures dir <= xs[i].path + p { PrefixTrans(dir, xs[i].path, xs[i].path + p); }
    }
  }

  lemma PlacedSize(fs: Fs, r: Fs, dest: Path, xs: seq<Staged>, ps: seq<Placed>)
    requires AllPlaced(fs, r, dest, xs, ps)
    ensures |ps| == |xs|
  {
  }

  lemma NonePlaced(fs: Fs, r: Fs, m: Fs, dest: Path, xs: seq<Staged>, ps: seq<Placed>)
    requires AllPlaced(fs, r, dest, xs, ps) && |ps| == 0
    ensures AllPlaced(fs, m, dest, xs, ps)
  {
  }

  lemma {:induction false} MovableFrom(fs: Fs, dir: Path, items: seq<Staged>)
    requires InDragDir(dir, items)
    ensures InDragDir(dir, Movable(fs, items))
  {
    if items != [] {
      MovableFrom(fs, dir, items[..|items| - 1]);
    }
  }

  lemma DirThere(fs: Fs, r: Fs, dir: Path, dest: Path, items: seq<Staged>, xs: seq<Staged>, ps: seq<Placed>)
    requires WellFormed(fs) && InDragDir(dir, items) && xs == Movable(fs, items) && AllPlaced(fs, r, dest, xs, ps)
             && |ps| > 0
    ensures dir in fs || dir == []
  {
    hide WellFormed;
    MovableFrom(fs, dir, items);
    assert ItemPlaced(fs, r, dest, xs[0], ps[0]);
    AncestorsAreDirs(fs, xs[0].path);
    assert xs[0].path[..|dir|] == dir;
  }

  /** Removing the drag's directory leaves the placed items alone. */
  lemma RemovedBeside(fs: Fs, r: Fs, dir: Path, dest: Path, xs: seq<Staged>, ps: seq<Placed>)
    requires WellFormed(fs) && WellFormed(r) && dir in fs && !(dir <= dest) && AllPlaced(fs, r, dest, xs, ps)
    ensures AllPlaced(fs, RemoveDir(r, dir), dest, xs, ps)
  {
    hide WellFormed, RemoveDir;
    RemoveDirEffect(r, dir);
    forall i | 0 <= i < |xs| ensures ItemPlaced(fs, RemoveDir(r, dir), dest, xs[i], ps[i]) {
      assert ItemPlaced(fs, r, dest, xs[i], ps[i]);
      PlacesApart(fs, dir, dest, ps[i].path);
    }
  }

  /* ---- two files of one name ---- */

  function DragRecv(d: Drag, name: string, part: string, size: nat): Recv {
    Recv(name, size, 0, d.dir + [part], d.dir + [name], [], [], Some(d.drag), None)
  }

  /** A drag is being staged in its directory. */
  ghost predicate Dragging(s: State, d: Drag) {
    s.drag == Some(d) && WellFormed(s.fs) && d.dir in s.fs && s.fs[d.dir].Dir?
  }

  /** Offering a file to a drag while its name is unused but `part` may be taken by another transfer. */
  lemma OfferedToDrag(s: State, d: Drag, id: nat, name: string, part: string, size: nat, env: Env)
    requires Dragging(s, d) && AllLucky(env) && id !in s.recv && Names.IsClean(name)
    requires d.dir + [name] !in s.fs && FreeFilePath(s.fs, d.dir, name + ".vylopart") == d.dir + [part]
    ensures var r := Handle(s, DragOffer(d.drag, id, name, size), env);
            && r.fs == s.fs[d.dir + [part] := Part(id)] && WellFormed(r.fs)
            && r.recv == s.recv[id := DragRecv(d, name, part, size)]
            && r.drag == Some(d.(offered := d.offered + 1, outstanding := d.outstanding + {id}))
            && r.trees == s.trees && r.placed == s.placed
  {
    hide WellFormed, MkdirAll, FreeFilePath, Names.IsClean, Names.Sanitize;
    Names.CleanIsFixed(name);
    MkdirExisting(s.fs, d.dir, env);
    FreeAsNamed(s.fs, d.dir, name);
    assert Lucky(env, OpCreate(d.dir + [part]));
    FreeIsFree(s.fs, d.dir, name + ".vylopart");
    assert (d.dir + [part])[..|d.dir + [part]| - 1] == d.dir;
    PartWellFormed(s.fs, d.dir + [part], id);
  }

  lemma FreeIsFree(fs: Fs, dir: Path, name: string)
    ensures FreeFilePath(fs, dir, name) !in fs
    ensures exists part :: FreeFilePath(fs, dir, name) == dir + [part] && |part| >= |name|
    ensures dir + [name] !in fs ==> FreeFilePath(fs, dir, name) == dir + [name]
  {
    var (stem, ext) := SplitExt(name);
    PlacementIsFresh(fs, dir, stem, ext);
    var n := FirstFree(fs.Keys, dir, stem, ext, 0);
    assert |Numbered(stem, ext, n)| >= |stem| + |ext|;
  }

  /** A file of a drag arrives: whatever has its name is replaced. */
  lemma StreamedToDrag(s: State, d: Drag, id: nat, name: string, part: string, content: Bytes, env: Env)
    requires s.drag == Some(d) && !d.dropRequested && AllLucky(env) && |content| <= CHUNK_SIZE
    requires id in s.recv && s.recv[id] == DragRecv(d, name, part, |content|)
    requires d.dir in s.fs && s.fs[d.dir].Dir? && d.dir + [part] in s.fs && s.fs[d.dir + [part]] == Part(id)
    requires d.dir + [name] in s.fs ==> !s.fs[d.dir + [name]].Dir?
    ensures var r := Handle(Handle(s, FileChunk(id, 0, content), env), FileDone(id, env.sha(content)), env);
            && r.fs == (s.fs - {d.dir + [part]})[d.dir + [name] := File(content)]
            && r.recv == s.recv - {id} && r.trees == s.trees && r.placed == s.placed
            && r.drag == Some(d.(outstanding := d.outstanding - {id},
                                 done := d.done + [Staged(id, name, false, |content|, d.dir + [name], None)]))
  {
    var src, dst := d.dir + [part], d.dir + [name];
    assert Lucky(env, OpWrite(src)) && Lucky(env, OpRename(src, dst));
    assert [] + content == content;
    var s1 := Handle(s, FileChunk(id, 0, content), env);
    assert s1 == s.(recv := s.recv[id := s.recv[id].(received := |content|, hashed := content, written := content)]);
    assert dst[..|dst| - 1] == d.dir;
    assert s1.recv - {id} == s.recv - {id};
  }

  /** Two files of the same name dragged together: the place of each is chosen at
      its offer and not reserved, so both get the same one. Both count as staged,
      only the later one's content is there, and the drop will place one item. */
  lemma SameNameLosesFile(s: State, d: Drag, i: nat, j: nat, name: string, a: Bytes, b: Bytes, env: Env)
    requires Dragging(s, d) && !d.dropRequested && d.done == [] && AllLucky(env)
    requires forall p :: p != [] ==> d.dir + p !in s.fs
    requires i !in s.recv && j !in s.recv && i != j && |a| <= CHUNK_SIZE && |b| <= CHUNK_SIZE && Names.IsClean(name)
    ensures var s1 := Handle(s, DragOffer(d.drag, i, name, |a|), env);
            var s2 := Handle(s1, DragOffer(d.drag, j, name, |b|), env);
            var s3 := Handle(Handle(s2, FileChunk(i, 0, a), env), FileDone(i, env.sha(a)), env);
            var s4 := Handle(Handle(s3, FileChunk(j, 0, b), env), FileDone(j, env.sha(b)), env);
            && s4.drag.Some? && |s4.drag.value.done| == 2
            && d.dir + [name] in s4.fs && s4.fs[d.dir + [name]] == File(b)
            && |Movable(s4.fs, s4.drag.value.done)| == 1
  {
    hide Handle, WellFormed, FreeFilePath, Names.IsClean;
    var dir, p := d.dir, name + ".vylopart";
    assert |p| == |name| + 9;
    assert [p] != [] && [name] != [];
    SamePrefix(dir, [p], [name]);
    assert [p] != [name] by { assert [p][0] != [name][0]; }
    FreeIsFree(s.fs, dir, p);
    OfferedToDrag(s, d, i, name, p, |a|, env);
    var s1 := Handle(s, DragOffer(d.drag, i, name, |a|), env);
    var d1 := s1.drag.value;
    FreeIsFree(s1.fs, dir, p);
    var q :| FreeFilePath(s1.fs, dir, p) == dir + [q] && |q| >= |p|;
    assert [q] != [name] by { assert [q][0] != [name][0]; }
    SamePrefix(dir, [q], [p]);
    SamePrefix(dir, [q], [name]);
    assert dir + [p] != dir && dir + [q] != dir && dir + [name] != dir;
    OfferedToDrag(s1, d1, j, name, q, |b|, env);
    var s2 := Handle(s1, DragOffer(d.drag, j, name, |b|), env);
    var d2 := s2.drag.value;
    StreamedToDrag(s2, d2, i, name, p, a, env);
    var s3 := Handle(Handle(s2, FileChunk(i, 0, a), env), FileDone(i, env.sha(a)), env);
    var d3 := s3.drag.value;
    StreamedToDrag(s3, d3, j, name, q, b, env);
    var s4 := Handle(Handle(s3, FileChunk(j, 0, b), env), FileDone(j, env.sha(b)), env);
    TwoOfOne(s4.fs, s4.drag.value.done);
  }

  lemma TwoOfOne(fs: Fs, items: seq<Staged>)
    requires |items| == 2 && items[0].path == items[1].path && items[0].path in fs
    ensures |Movable(fs, items)| == 1
  {
    var front := items[..1];
    assert front[..0] == [] && Movable(fs, []) == [] && Paths([]) == [];
    assert Movable(fs, front) == [] + [front[0]];
    assert Paths(front)[0] == items[1].path;
  }
}
