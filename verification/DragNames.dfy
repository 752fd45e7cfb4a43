/** Items with different names, none called like another's temporary file, do not take
    each other's place in a drag. */
module DragNames {
  import opened Basics
  import opened Disk
  import opened Receiving
  import opened Ownership
  import opened Frames
  import opened Staging
  import opened Cleanup
  import opened Footprints
  import opened Layout
  import opened Additions
  import opened Streams
  import opened FolderIntact
  import opened Deliveries
  import opened Losses
  import Names

  const PART := ".vylopart"

  /** The cleaned name under which the message offers an item to drag `d`. */
  function ItemName(m: Message, d: nat): Option<string> {
    match m
    case DragOffer(drag, _, name, _) => if drag == d then Names.Sanitize(name) else None
    case TreeOffer(_, name, _, _, within) => if within == Some(d) then Names.Sanitize(name) else None
    case _ => None
  }

  /** The names offered to drag `d`. */
  function Offered(es: seq<Event>, d: nat): set<string> {
    if es == [] then {}
    else
      var n := ItemName(es[|es| - 1].m, d);
      Offered(es[..|es| - 1], d) + if n.Some? then {n.value} else {}
  }

  /** `n` is a new name, and neither it nor a name in `used` is the other's with the
      ending of temporary files. */
  predicate Apart(used: set<string>, n: string) { n !in used && n + PART !in used
                                                 && forall u :: u in used ==> n != u + PART }

  /** Every item offered to drag `d` has a name apart from the ones before. */
  predicate NamesApart(es: seq<Event>, d: nat) {
    es == []
    || (&& NamesApart(es[..|es| - 1], d)
        && var n := ItemName(es[|es| - 1].m, d); n.Some? ==> Apart(Offered(es[..|es| - 1], d), n.value))
  }

  /** A file offered directly to the drag. */
  predicate IsLoose(s: State, id: nat) { id in s.recv && s.recv[id].tree.None? && s.DragIs(s.recv[id].drag) }

  ghost predicate FileNamed(s: State, used: set<string>, id: nat)
    requires IsLoose(s, id)
  {
    var t, dir := s.recv[id], s.drag.value.dir;
    t.name in used && t.final == dir + [t.name] && t.part == dir + [t.name + PART]
  }

  ghost predicate TreeNamed(s: State, used: set<string>, t: nat)
    requires t in s.trees && s.drag.Some?
  {
    s.trees[t].root != [] && s.DragIs(s.trees[t].drag) ==>
      s.trees[t].name in used && s.trees[t].root == s.drag.value.dir + [s.trees[t].name]
  }

  /** Everything in the drag's directory has the name of an offered item, or such a name
      with the ending of temporary files; each item has its own. */
  ghost predicate Named(s: State, used: set<string>) {
    && s.drag.Some?
    && var dir, done := s.drag.value.dir, s.drag.value.done;
    && (forall n :: dir + [n] in s.fs ==> n in used || exists u :: u in used && n == u + PART)
    && (forall id :: IsLoose(s, id) ==> FileNamed(s, used, id))
    && (forall x :: x in done ==> x.name in used && x.path == dir + [x.name])
    && (forall t :: t in s.trees ==> TreeNamed(s, used, t))
    && (forall i, j :: IsLoose(s, i) && IsLoose(s, j) && i != j ==> s.recv[i].name != s.recv[j].name)
    && (forall i, x :: IsLoose(s, i) && x in done ==> s.recv[i].name != x.name)
    && (forall i, t :: IsLoose(s, i) && t in s.trees && s.trees[t].root != [] && s.DragIs(s.trees[t].drag) ==>
          s.recv[i].name != s.trees[t].name)
  }

  /** No two of the names differ just by the ending of temporary files. */
  predicate AllApart(used: set<string>) { forall a, b :: a in used && b in used ==> a != b + PART }

  lemma {:induction false} OfferedApart(es: seq<Event>, d: nat)
    requires NamesApart(es, d)
    ensures AllApart(Offered(es, d))
  {
    if es != [] { OfferedApart(es[..|es| - 1], d); }
  }

  lemma LastOf(dir: Path, a: string, b: string)
    ensures dir + [a] == dir + [b] <==> a == b
  {
    assert (dir + [a])[|dir|] == a && (dir + [b])[|dir|] == b;
  }

  /** With such names, no message takes the place of a staged item. */
  lemma NamedLosesNone(s: State, m: Message, env: Env, used: set<string>)
    requires Sound(s) && Intact(s) && Named(s, used) && AllApart(used)
    ensures !Loses(s, m, env)
  {
    hide Sound, EmptiesPart;
    var dir := s.drag.value.dir;
    forall x | x in s.drag.value.done ensures !Takes(s, m, env, x.path) {
      ItemPlace(s, x);
      if Finishes(s, m, env) && s.recv[m.id].final == x.path {
        FinishingIsLoose(s, m.id, x.path);
        assert IsLoose(s, m.id) && FileNamed(s, used, m.id);
        LastOf(dir, s.recv[m.id].name, x.name);
      }
      forall id | id in s.recv && EmptiesPart(s, m, env, id) ensures s.recv[id].part != x.path {
        if s.recv[id].part == x.path {
          PartIsLoose(s, id, x);
          assert IsLoose(s, id) && FileNamed(s, used, id);
          LastOf(dir, s.recv[id].name + PART, x.name);
        }
      }
    }
  }

  /* ---- what is new is named as it was offered ---- */

  lemma MkdirHere(fs: Fs, dir: Path, env: Env)
    requires WellFormed(fs) && dir in fs && fs[dir].Dir? && MkdirAll(fs, dir, env).Some?
    ensures MkdirAll(fs, dir, env).value == fs
  {
    forall q | q in Ancestors(dir) ensures q in fs && fs[q].Dir? {
      assert q == dir[..|q|];
      if q != dir { AncestorsAreDirs(fs, dir); }
    }
    assert fs + (map q | q in Ancestors(dir) :: Dir) == fs;
  }

  lemma SameEnding(a: string, b: string)
    ensures a + PART == b + PART <==> a == b
  {
    assert (a + PART)[..|a|] == a && (b + PART)[..|b|] == b;
    assert a + PART == b + PART ==> |a| == |b|;
  }

  /** The names a new item gets are free. */
  lemma FreeNames(s: State, used: set<string>, n: string)
    requires Named(s, used) && Apart(used, n)
    ensures s.drag.value.dir + [n] !in s.fs && s.drag.value.dir + [n + PART] !in s.fs
  {
    forall u: string | u in used ensures n + PART != u + PART { SameEnding(n, u); }
  }

  lemma BegunNamed(fs: Fs, dir: Path, id: nat, name: string, size: nat, drag: Option<nat>, env: Env)
    requires WellFormed(fs) && dir in fs && fs[dir].Dir? && Names.Sanitize(name).Some?
    requires dir + [Names.Sanitize(name).value] !in fs && dir + [Names.Sanitize(name).value + PART] !in fs
    requires BeginRecv(fs, dir, id, name, size, drag, None, env).1.Some?
    ensures var t, n := BeginRecv(fs, dir, id, name, size, drag, None, env).1.value, Names.Sanitize(name).value;
            t.name == n && t.final == dir + [n] && t.part == dir + [n + PART]
  {
    hide MkdirAll, FreeFilePath, Names.Sanitize, WellFormed;
    var n := Names.Sanitize(name).value;
    MkdirHere(fs, dir, env);
    FreeAsNamed(fs, dir, n);
    FreeAsNamed(fs, dir, n + PART);
  }

  lemma NewLooseNamed(s: State, drag: nat, id: nat, name: string, size: nat, env: Env, used: set<string>)
    requires Sound(s) && Named(s, used) && s.DragIs(Some(drag)) && id !in s.recv
    requires id in OfferInDrag(s, drag, id, name, size, env).recv
    ensures Names.Sanitize(name).Some?
    ensures var t, n, dir := OfferInDrag(s, drag, id, name, size, env).recv[id], Names.Sanitize(name).value,
            s.drag.value.dir;
            Apart(used, n) ==> t.name == n && t.final == dir + [n] && t.part == dir + [n + PART]
  {
    hide Owned, Located, RootLaid, FileLaid, Named, BeginRecv, FinalizeDrag, Names.Sanitize, WellFormed, Apart;
    LocatedTidy(s);
    var d := s.drag.value.(offered := s.drag.value.offered + 1);
    BegunOnlyNamed(s.fs, d.dir, id, name, size, Some(drag), env);
    if Apart(used, Names.Sanitize(name).value) {
      FreeNames(s, used, Names.Sanitize(name).value);
      BegunNamed(s.fs, d.dir, id, name, size, Some(drag), env);
    }
  }

  lemma BegunOnlyNamed(fs: Fs, dir: Path, id: nat, name: string, size: nat, drag: Option<nat>, env: Env)
    ensures BeginRecv(fs, dir, id, name, size, drag, None, env).1.Some? ==> Names.Sanitize(name).Some?
  {
    hide MkdirAll, FreeFilePath, Names.Sanitize;
  }

  lemma NewRootNamed(s: State, tree: nat, name: string, files: nat, bytes: nat, drag: Option<nat>, env: Env,
                     used: set<string>)
    requires Sound(s) && Named(s, used) && s.DragIs(drag) && tree !in s.trees
    ensures var t := OfferTree(s, tree, name, files, bytes, drag, env).trees[tree];
            t.root != [] ==>
              && Names.Sanitize(name).Some?
              && var n := Names.Sanitize(name).value;
                 Apart(used, n) ==> t.name == n && t.root == s.drag.value.dir + [n]
  {
    hide Owned, Located, RootLaid, FileLaid, Named, MkdirAll, FreeDirPath, Names.Sanitize, WellFormed, Apart;
    LocatedTidy(s);
    if Names.Sanitize(name).Some? && MkdirAll(s.fs, s.drag.value.dir, env).Some? {
      var n := Names.Sanitize(name).value;
      MkdirHere(s.fs, s.drag.value.dir, env);
      if Apart(used, n) {
        FreeNames(s, used, n);
        FreeAsNamed(s.fs, s.drag.value.dir, n);
      }
    }
  }

  /* ---- every message ---- */

  /** The names after one more message. */
  function Grown(used: set<string>, m: Message, d: nat): set<string> {
    used + if ItemName(m, d).Some? then {ItemName(m, d).value} else {}
  }

  ghost predicate Next(s: State, m: Message, env: Env, used: set<string>) {
    && Sound(s) && s.drag.Some? && Named(s, used) && !Abandons(m, s.drag.value.drag)
    && Handle(s, m, env).drag.Some?
    && var n := ItemName(m, s.drag.value.drag); n.Some? ==> Apart(used, n.value)
  }

  lemma SameDrag(s: State, m: Message, env: Env)
    requires s.drag.Some? && Handle(s, m, env).drag.Some? && !m.DragBegin?
    ensures Handle(s, m, env).drag.value.drag == s.drag.value.drag
            && Handle(s, m, env).drag.value.dir == s.drag.value.dir
  {
    hide Handle, NewItem;
    DragAfter(s, m, env);
  }

  lemma OfferHandled(s: State, m: Message, env: Env)
    ensures m.DragOffer? ==> Handle(s, m, env) == OfferInDrag(s, m.drag, m.id, m.name, m.size, env)
    ensures m.TreeOffer? ==> Handle(s, m, env) == OfferTree(s, m.tree, m.name, m.files, m.bytes, m.within, env)
  {
    hide OfferInDrag, OfferTree;
  }

  /** A file of the drag, known before or offered just now, is named. */
  lemma LooseStaysNamed(s: State, m: Message, env: Env, used: set<string>, id: nat)
    requires Next(s, m, env, used) && IsLoose(Handle(s, m, env), id)
    ensures FileNamed(Handle(s, m, env), Grown(used, m, s.drag.value.drag), id)
    ensures if id in s.recv then IsLoose(s, id) && Handle(s, m, env).recv[id].name == s.recv[id].name
            else Handle(s, m, env).recv[id].name !in used
  {
    hide Sound, Handle, Named, OfferInDrag, Names.Sanitize;
    var r, d := Handle(s, m, env), s.drag.value.drag;
    SameDrag(s, m, env);
    TransferAfter(s, m, env, id);
    if id in s.recv {
      assert IsLoose(s, id);
      NamedLoose(s, used, id);
    } else {
      OnlyOffered(s, m, env, id);
      OfferHandled(s, m, env);
      NewLooseNamed(s, m.drag, id, m.name, m.size, env, used);
    }
  }

  lemma NamedLoose(s: State, used: set<string>, id: nat)
    requires Named(s, used) && IsLoose(s, id)
    ensures FileNamed(s, used, id)
  {
  }

  /** A new file of the drag was offered to it. */
  lemma OnlyOffered(s: State, m: Message, env: Env, id: nat)
    requires id !in s.recv && IsLoose(Handle(s, m, env), id) && s.drag.Some?
    requires Offers(m) == Some(id) && Handle(s, m, env).drag.value.drag == s.drag.value.drag
    ensures m.DragOffer? && m.id == id && m.drag == s.drag.value.drag
  {
    hide AcceptOffer, FinalizeDrag, OfferInTree, OfferInDrag;
    if m.TreeFile? { OfferInTreeEffect(s, m.tree, m.id, m.rel, m.size, env); }
  }

  /** A folder of the drag, known before or offered just now, is named. */
  lemma TreeStaysNamed(s: State, m: Message, env: Env, used: set<string>, t: nat)
    requires Next(s, m, env, used) && t in Handle(s, m, env).trees
    ensures TreeNamed(Handle(s, m, env), Grown(used, m, s.drag.value.drag), t)
    ensures var r := Handle(s, m, env);
            r.trees[t].root != [] && r.DragIs(r.trees[t].drag) ==>
              if t in s.trees then
                s.trees[t].root != [] && s.DragIs(s.trees[t].drag) && r.trees[t].name == s.trees[t].name
              else r.trees[t].name !in used
  {
    hide Sound, Handle, Named, OfferTree, Names.Sanitize;
    var r, d := Handle(s, m, env), s.drag.value.drag;
    SameDrag(s, m, env);
    TreeAfter(s, m, env, t);
    if t in s.trees {
      NamedTree(s, used, t);
    } else {
      OfferHandled(s, m, env);
      OfferedDrag(s, t, m.name, m.files, m.bytes, m.within, env);
      if s.DragIs(m.within) { NewRootNamed(s, t, m.name, m.files, m.bytes, m.within, env, used); }
    }
  }

  lemma OfferedDrag(s: State, tree: nat, name: string, files: nat, bytes: nat, drag: Option<nat>, env: Env)
    requires tree !in s.trees
    ensures OfferTree(s, tree, name, files, bytes, drag, env).trees[tree].drag == drag
  {
    hide OfferTree;
  }

  lemma NamedTree(s: State, used: set<string>, t: nat)
    requires Named(s, used) && t in s.trees
    ensures TreeNamed(s, used, t)
  {
  }

  /** What is staged is named. */
  lemma DoneStaysNamed(s: State, m: Message, env: Env, used: set<string>, x: Staged)
    requires Next(s, m, env, used) && x in Handle(s, m, env).drag.value.done
    ensures x.name in used && x.path == s.drag.value.dir + [x.name]
    ensures || x in s.drag.value.done
            || (x.folder && NewItem(s, m, env, x))
            || (!x.folder && NewItem(s, m, env, x) && IsLoose(s, x.id) && s.recv[x.id].name == x.name
                && x.id !in Handle(s, m, env).recv)
  {
    hide Sound, Handle, Named, Names.Sanitize;
    DragAfter(s, m, env);
    if x in s.drag.value.done {
      NamedItem(s, used, x);
    } else if x.folder {
      NamedTree(s, used, x.id);
      NewItemLaidDeep(s, m, env, x);
    } else {
      assert IsLoose(s, x.id);
      NamedLoose(s, used, x.id);
      FinishedGone(s, m, env);
    }
  }

  lemma FinishedGone(s: State, m: Message, env: Env)
    requires Finishes(s, m, env)
    ensures m.id !in Handle(s, m, env).recv
  {
    hide Done;
    DoneEnds(s, m.id, m.digest, env);
  }

  lemma NewItemLaidDeep(s: State, m: Message, env: Env, x: Staged)
    requires Sound(s) && s.drag.Some? && NewItem(s, m, env, x)
    ensures x.path != []
  {
    hide Sound, NewItem;
    NewItemLaid(s, m, env, x);
  }

  lemma NamedItem(s: State, used: set<string>, x: Staged)
    requires Named(s, used) && x in s.drag.value.done
    ensures x.name in used && x.path == s.drag.value.dir + [x.name]
  {
  }

  /** What lies in the drag's directory is named. */
  lemma ChildStaysNamed(s: State, m: Message, env: Env, used: set<string>, n: string)
    requires Next(s, m, env, used) && s.drag.value.dir + [n] in Handle(s, m, env).fs
    ensures var grown := Grown(used, m, s.drag.value.drag); n in grown || exists u :: u in grown && n == u + PART
  {
    hide Sound, Handle, Names.Sanitize, Finishes, StartsAt, RootsAt, Old, TreeNamed, FileNamed;
    var r, dir := Handle(s, m, env), s.drag.value.dir;
    var q := dir + [n];
    if q !in s.fs {
      RootsThere(s);
      HandleAdds(s, m, env, q, q);
      NotOld(s.fs, r.fs, q);
      if Finishes(s, m, env) {
        FinishedName(s, m, env, used, n);
      }
      if StartsAt(s, m, env, q) { StartedName(s, m, env, used, n); }
      if RootsAt(s, m, env, q) { RootedName(s, m, env, used, n); }
    }
  }

  lemma NotOld(fs: Fs, r: Fs, q: Path)
    requires q !in fs && q in r
    ensures !Old(fs, r, q)
  {
  }

  lemma RootsThere(s: State)
    requires Sound(s)
    ensures forall t :: t in s.trees && s.trees[t].root != [] && s.trees[t].failed.None? ==> s.trees[t].root in s.fs
  {
    hide Owned, Located, FileLaid;
    forall t | t in s.trees && s.trees[t].root != [] && s.trees[t].failed.None? ensures s.trees[t].root in s.fs {
      assert RootLaid(s, t);
    }
  }

  lemma FinishedName(s: State, m: Message, env: Env, used: set<string>, n: string)
    requires Sound(s) && Named(s, used) && Finishes(s, m, env)
    ensures s.recv[m.id].final == s.drag.value.dir + [n] ==> n in used
  {
    hide Sound;
    var q := s.drag.value.dir + [n];
    if s.recv[m.id].final == q {
      FinishingIsLoose(s, m.id, q);
      assert IsLoose(s, m.id) && FileNamed(s, used, m.id);
      LastOf(s.drag.value.dir, n, s.recv[m.id].name);
    }
  }

  lemma StartedName(s: State, m: Message, env: Env, used: set<string>, n: string)
    requires Next(s, m, env, used) && StartsAt(s, m, env, s.drag.value.dir + [n])
    ensures var grown := Grown(used, m, s.drag.value.drag); exists u :: u in grown && n == u + PART
  {
    hide Sound, Handle, Named, Names.Sanitize;
    var r := Handle(s, m, env);
    SameDrag(s, m, env);
    StartedLoose(s, m, env);
    LooseStaysNamed(s, m, env, used, m.id);
    LastOf(s.drag.value.dir, n, r.recv[m.id].name + PART);
  }

  lemma StartedLoose(s: State, m: Message, env: Env)
    requires m.DragOffer? && s.DragIs(Some(m.drag)) && m.id !in s.recv && m.id in Handle(s, m, env).recv
    ensures IsLoose(Handle(s, m, env), m.id)
  {
    hide OfferInDrag;
  }

  lemma RootedName(s: State, m: Message, env: Env, used: set<string>, n: string)
    requires Next(s, m, env, used) && RootsAt(s, m, env, s.drag.value.dir + [n])
    ensures n in Grown(used, m, s.drag.value.drag)
  {
    hide Sound, Handle, Named, Names.Sanitize, OfferTree;
    var r := Handle(s, m, env);
    SameDrag(s, m, env);
    OfferHandled(s, m, env);
    OfferedDrag(s, m.tree, m.name, m.files, m.bytes, m.within, env);
    TreeStaysNamed(s, m, env, used, m.tree);
    LastOf(s.drag.value.dir, n, r.trees[m.tree].name);
  }

  /** Everything stays named. */
  lemma NamedStays(s: State, m: Message, env: Env, used: set<string>)
    requires Next(s, m, env, used)
    ensures Named(Handle(s, m, env), Grown(used, m, s.drag.value.drag))
  {
    hide Sound, Handle, Names.Sanitize, NewItem, FileNamed, TreeNamed;
    var r, d := Handle(s, m, env), s.drag.value.drag;
    var grown := Grown(used, m, d);
    SameDrag(s, m, env);
    forall n | r.drag.value.dir + [n] in r.fs ensures n in grown || exists u :: u in grown && n == u + PART {
      ChildStaysNamed(s, m, env, used, n);
    }
    forall id | IsLoose(r, id)
      ensures FileNamed(r, grown, id)
      ensures if id in s.recv then IsLoose(s, id) && r.recv[id].name == s.recv[id].name && s.recv[id].name in used
              else r.recv[id].name !in used && Offers(m) == Some(id)
    {
      LooseStaysNamed(s, m, env, used, id);
      if id in s.recv { NamedName(s, used, id); } else { TransferAfter(s, m, env, id); }
    }
    forall x | x in r.drag.value.done ensures x.name in used && x.path == r.drag.value.dir + [x.name] {
      DoneStaysNamed(s, m, env, used, x);
    }
    forall t | t in r.trees ensures TreeNamed(r, grown, t) { TreeStaysNamed(s, m, env, used, t); }
    forall i, x | IsLoose(r, i) && x in r.drag.value.done ensures r.recv[i].name != x.name {
      LooseAndDone(s, m, env, used, i, x);
    }
    forall i, t | IsLoose(r, i) && t in r.trees && r.trees[t].root != [] && r.DragIs(r.trees[t].drag)
      ensures r.recv[i].name != r.trees[t].name
    {
      LooseAndTree(s, m, env, used, i, t);
    }
  }

  lemma NamedName(s: State, used: set<string>, id: nat)
    requires Named(s, used) && IsLoose(s, id)
    ensures s.recv[id].name in used
  {
    NamedLoose(s, used, id);
  }

  lemma LooseAndDone(s: State, m: Message, env: Env, used: set<string>, i: nat, x: Staged)
    requires Next(s, m, env, used) && IsLoose(Handle(s, m, env), i) && x in Handle(s, m, env).drag.value.done
    ensures Handle(s, m, env).recv[i].name != x.name
  {
    hide Sound, Handle, Names.Sanitize, FileNamed;
    LooseStaysNamed(s, m, env, used, i);
    DoneStaysNamed(s, m, env, used, x);
    if i in s.recv && x.folder && x !in s.drag.value.done { FolderLeft(s, m, env, x); }
  }

  lemma FolderLeft(s: State, m: Message, env: Env, x: Staged)
    requires Sound(s) && s.drag.Some? && NewItem(s, m, env, x) && x.folder
    ensures x.id in s.trees && s.trees[x.id].root != [] && s.DragIs(s.trees[x.id].drag) && s.trees[x.id].name == x.name
  {
    hide Sound, Handle;
    NewItemLaidDeep(s, m, env, x);
  }

  lemma LooseAndTree(s: State, m: Message, env: Env, used: set<string>, i: nat, t: nat)
    requires Next(s, m, env, used) && IsLoose(Handle(s, m, env), i) && t in Handle(s, m, env).trees
    requires var r := Handle(s, m, env); r.trees[t].root != [] && r.DragIs(r.trees[t].drag)
    ensures Handle(s, m, env).recv[i].name != Handle(s, m, env).trees[t].name
  {
    hide Sound, Handle, Names.Sanitize, FileNamed, TreeNamed;
    LooseStaysNamed(s, m, env, used, i);
    TreeStaysNamed(s, m, env, used, t);
    TreeAfter(s, m, env, t);
    if i in s.recv { NamedName(s, used, i); } else { TransferAfter(s, m, env, i); }
    if t in s.trees { NamedTreeName(s, used, t); }
  }

  lemma NamedTreeName(s: State, used: set<string>, t: nat)
    requires Named(s, used) && t in s.trees && s.trees[t].root != [] && s.DragIs(s.trees[t].drag)
    ensures s.trees[t].name in used
  {
    NamedTree(s, used, t);
  }

  /** With such names, no folder is given the path of another. */
  lemma NamedSharesNone(s: State, m: Message, env: Env, used: set<string>)
    requires Sound(s) && Named(s, used)
    requires var n := ItemName(m, s.drag.value.drag); n.Some? ==> Apart(used, n.value)
    ensures !SharesRoot(s, m, env)
  {
    hide Sound, Named, Names.Sanitize, ChosenRoot;
    if SharesRoot(s, m, env) {
      SoundParts(s);
      var u := SharesInDrag(s, m, env);
      ChosenNamed(s, m, env, used);
      NamedTree(s, used, u);
      LastOf(s.drag.value.dir, s.trees[u].name, ItemName(m, s.drag.value.drag).value);
    }
  }

  lemma ChosenNamed(s: State, m: Message, env: Env, used: set<string>)
    requires Sound(s) && Named(s, used) && m.TreeOffer? && s.DragIs(m.within) && ChosenRoot(s, m, env).Some?
    requires var n := ItemName(m, s.drag.value.drag); n.Some? ==> Apart(used, n.value)
    ensures ItemName(m, s.drag.value.drag).Some?
    ensures ChosenRoot(s, m, env).value == s.drag.value.dir + [ItemName(m, s.drag.value.drag).value]
  {
    hide Owned, Located, RootLaid, FileLaid, Named, MkdirAll, FreeDirPath, Names.Sanitize, WellFormed, Apart;
    LocatedTidy(s);
    var n := Names.Sanitize(m.name).value;
    MkdirHere(s.fs, s.drag.value.dir, env);
    FreeNames(s, used, n);
    FreeAsNamed(s.fs, s.drag.value.dir, n);
  }

  /* ---- whole runs ---- */

  /** Over any run in which a drag is held that started empty, and every item offered
      to it has a name apart from the others, folders get directories of their own and
      nothing staged is lost. */
  lemma {:induction false} NamesKeepAll(s: State, es: seq<Event>, d: nat)
    requires Sound(s) && Intact(s) && Named(s, {}) && FreshRun(s, es) && HeldThroughout(s, es, d) && NamesApart(es, d)
    ensures GoodRun(s, es) && NothingLost(s, es) && Named(Run(s, es), Offered(es, d))
  {
    hide Sound, Handle, Loses, FreshKind, SharesRoot, StagedWhole, Named, Names.Sanitize;
    if es != [] {
      var front, e := es[..|es| - 1], es[|es| - 1];
      var before, used := Run(s, front), Offered(front, d);
      NamesKeepAll(s, front, d);
      RunKeepsSound(s, front);
      WholeExactly(s, front, d);
      HeldNow(s, front, d);
      OfferedApart(front, d);
      NamedSharesNone(before, e.m, e.env, used);
      NamedLosesNone(before, e.m, e.env, used);
      NamedStays(before, e.m, e.env, used);
    }
  }

  /** And none is lost by the message that completes the drop. */
  lemma NamesKeepAllAtDrop(s: State, es: seq<Event>, d: nat)
    requires es != [] && Sound(s) && Intact(s) && Named(s, {}) && FreshRun(s, es)
    requires HeldThroughout(s, es[..|es| - 1], d) && NamesApart(es, d)
    ensures GoodRun(s, es) && NothingLost(s, es)
  {
    hide Sound, Handle, Loses, FreshKind, SharesRoot, StagedWhole, Named, Names.Sanitize;
    var front, e := es[..|es| - 1], es[|es| - 1];
    NamesKeepAll(s, front, d);
    RunKeepsSound(s, front);
    WholeExactly(s, front, d);
    OfferedApart(front, d);
    HeldNow(s, front, d);
    NamedSharesNone(Run(s, front), e.m, e.env, Offered(front, d));
    NamedLosesNone(Run(s, front), e.m, e.env, Offered(front, d));
  }

  /** A drag that has just begun is empty. */
  lemma BegunIsEmpty(s: State, m: Message, env: Env)
    requires Sound(s) && m.DragBegin? && Handle(s, m, env).drag.Some?
    ensures var r := Handle(s, m, env); Sound(r) && Intact(r) && Named(r, {}) && Holds(r, m.drag)
  {
    hide Sound, Handle, Named;
    SoundAfterBegin(s, m, env);
    BegunEmpty(s, m, env);
    BegunHolds(s, m, env);
    NothingNamed(s, m, env);
  }

  lemma SoundAfterBegin(s: State, m: Message, env: Env)
    requires Sound(s) && m.DragBegin?
    ensures Sound(Handle(s, m, env))
  {
    hide Sound, Handle;
    HandleKeepsSound(s, m, env);
  }

  lemma BegunHolds(s: State, m: Message, env: Env)
    requires m.DragBegin? && Handle(s, m, env).drag.Some?
    ensures Holds(Handle(s, m, env), m.drag)
    ensures Handle(s, m, env).drag.value.dir == s.fileDir + [DragStagingName(m.drag)]
  {
    hide DiscardDrag, MkdirAll;
    DirsSame(s, m, env);
    if s.drag.Some? { DiscardSameDirs(s.(drag := None), s.drag.value); }
  }

  lemma NothingNamed(s: State, m: Message, env: Env)
    requires Sound(s) && m.DragBegin? && Handle(s, m, env).drag.Some? && Sound(Handle(s, m, env))
    requires var r := Handle(s, m, env); r.drag.value.outstanding == {} && r.drag.value.done == []
    requires Handle(s, m, env).drag.value.dir == s.fileDir + [DragStagingName(m.drag)]
    ensures Named(Handle(s, m, env), {})
  {
    hide Sound, Handle;
    var r := Handle(s, m, env);
    forall id ensures !IsLoose(r, id) { NoLoose(r, id); }
    forall t | t in r.trees ensures TreeNamed(r, {}, t) { NoCounted(r, t); }
    forall n ensures r.drag.value.dir + [n] !in r.fs { NoChild(s, m, env, n); }
  }

  lemma NoLoose(s: State, id: nat)
    requires Sound(s) && s.drag.Some? && s.drag.value.outstanding == {}
    ensures !IsLoose(s, id)
  {
    hide Located, Laid, FileOwned, TreeOwned;
    assert id !in LooseOf(s, s.drag.value.drag);
  }

  lemma NoCounted(s: State, t: nat)
    requires Sound(s) && s.drag.Some? && s.drag.value.outstanding == {} && t in s.trees
    ensures !(s.trees[t].root != [] && s.DragIs(s.trees[t].drag))
  {
    hide Laid, FileOwned, TreeOwned, TidyFs, IsStaging, Names.IsClean, Inside;
    assert t !in CountedOf(s, s.drag.value.drag);
    assert TreeLocated(s, t);
  }

  lemma NoChild(s: State, m: Message, env: Env, n: string)
    requires Sound(s) && m.DragBegin? && Handle(s, m, env).drag.Some?
    ensures s.fileDir + [DragStagingName(m.drag)] + [n] !in Handle(s, m, env).fs
  {
    hide DiscardDrag, MkdirAll, Located, Owned, RootLaid, FileLaid;
    if s.drag.Some? {
      DiscardLocated(s);
      DiscardSameDirs(s.(drag := None), s.drag.value);
      DiscardedNone(s);
    }
    var s1 := if s.drag.Some? then DiscardDrag(s.(drag := None), s.drag.value) else s;
    var dir := s.fileDir + [DragStagingName(m.drag)];
    var p := dir + [n];
    UnownedEmpty(s1, m.drag, p);
    MkdirAdds(s1.fs, dir, env, p);
  }

  /** Nothing is in a drag's directory while no drag is staged. */
  lemma UnownedEmpty(s: State, d: nat, p: Path)
    requires Located(s) && s.drag.None? && s.fileDir + [DragStagingName(d)] <= p && |p| == |s.fileDir| + 2
    ensures p !in s.fs
  {
    hide IsStaging, Unstaged, Names.IsClean, WellFormed, Inside, InStaging;
    var n := DragStagingName(d);
    StagingNames(d, d);
    PrefixAt(s.fileDir, n, p);
    StagedPath(s.fileDir, n, p);
    forall t | t in s.trees ensures s.trees[t].staging != Some(s.fileDir + [n]) {
      assert TreeLocated(s, t);
      StagingNames(t, d);
      LastOf(s.fileDir, n, TreeStagingName(t));
    }
    OwnersOf(s, s.fileDir + [n]);
    assert p in s.fs ==> TidyPath(s.fileDir, Owners(s), p);
  }
}
