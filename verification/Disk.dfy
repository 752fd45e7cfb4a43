/** The file system as a map from paths to nodes, the operations the receiver
    performs on it, and the choice of unused names. */
module Disk {
  import opened Basics

  /** Components below the file system's root; [] is the empty path, which names nothing. */
  type Path = seq<string>

  /** `Part(id)` is the temporary file that transfer `id` holds open; what it
      contains is what that transfer has written so far. */
  datatype Node = Dir | File(content: Bytes) | Part(id: nat)

  type Fs = map<Path, Node>

  type Digest = Bytes

  datatype Op = OpMkdir(path: Path) | OpCreate(path: Path) | OpWrite(path: Path) | OpRename(from: Path, to: Path)

  /** What the machine decides while one message is handled: which disk
      operations get through, and the digest function. */
  datatype Env = Env(lucky: Op -> bool, sha: Bytes -> Digest)

  predicate Lucky(env: Env, op: Op) { env.lucky(op) }

  /** All disk operations get through. */
  ghost predicate AllLucky(env: Env) { forall op :: Lucky(env, op) }

  /** Every path's ancestors are directories. */
  ghost predicate WellFormed(fs: Fs) {
    forall p :: p in fs ==> p != [] && forall k :: 1 <= k < |p| ==> p[..k] in fs && fs[p[..k]].Dir?
  }

  /* ---- operations ---- */

  function Ancestors(p: Path): (r: set<Path>)
    ensures forall q :: q in r <==> q != [] && q <= p
  {
    assert forall q :: q != [] && q <= p ==> q == p[..|q|];
    set k | 1 <= k <= |p| :: p[..k]
  }

  predicate IsDirOrRoot(fs: Fs, p: Path) {
    p == [] || (p in fs && fs[p].Dir?)
  }

  predicate HasParent(fs: Fs, p: Path) {
    p != [] && IsDirOrRoot(fs, p[..|p| - 1])
  }

  /** `create_dir_all`; fails when some ancestor is a file. */
  function MkdirAll(fs: Fs, p: Path, env: Env): Option<Fs> {
    if env.lucky(OpMkdir(p)) && forall q :: q in Ancestors(p) && q in fs ==> fs[q].Dir? then
      Some(fs + map q | q in Ancestors(p) :: Dir)
    else None
  }

  /** Create the temporary file of transfer `id`. */
  function CreatePart(fs: Fs, p: Path, id: nat, env: Env): Option<Fs> {
    if env.lucky(OpCreate(p)) && HasParent(fs, p) && (p in fs ==> !fs[p].Dir?) then Some(fs[p := Part(id)])
    else None
  }

  /** `remove_file`, errors ignored. */
  function RemoveFile(fs: Fs, p: Path): Fs {
    if p in fs && !fs[p].Dir? then fs - {p} else fs
  }

  function RemoveFiles(fs: Fs, ps: set<Path>): Fs {
    map p | p in fs && (p in ps ==> fs[p].Dir?) :: fs[p]
  }

  /** `remove_dir_all`, errors ignored. */
  function RemoveDir(fs: Fs, root: Path): Fs {
    if root in fs && fs[root].Dir? then map p | p in fs && !(root <= p) :: fs[p] else fs
  }

  /** The subtree at `src`, transplanted to `dst`. */
  function Transplanted(fs: Fs, src: Path, dst: Path): Fs {
    map q | q in (set p | p in fs && src <= p :: dst + p[|src|..]) && src + q[|dst|..] in fs :: fs[src + q[|dst|..]]
  }

  /** A file can be renamed over another file, not over a directory. */
  predicate CanRename(fs: Fs, src: Path, dst: Path, env: Env) {
    && env.lucky(OpRename(src, dst)) && src in fs && !fs[src].Dir?
    && HasParent(fs, dst) && (dst in fs ==> !fs[dst].Dir?)
  }

  /** `rename` of a file into place; a file already there is replaced. A
      temporary file becomes an ordinary one holding `content`. */
  function RenameFile(fs: Fs, src: Path, dst: Path, id: nat, content: Bytes, env: Env): Option<Fs> {
    if CanRename(fs, src, dst, env) then
      var node := if fs[src] == Part(id) then File(content) else fs[src];
      Some((fs - {src})[dst := node])
    else None
  }

  /** `move_path` to a name that was just found unused. */
  function MovePath(fs: Fs, src: Path, dst: Path, env: Env): Option<Fs> {
    if env.lucky(OpRename(src, dst)) && src in fs && HasParent(fs, dst) && dst !in fs && !(src <= dst) then
      Some((map p | p in fs && !(src <= p) :: fs[p]) + Transplanted(fs, src, dst))
    else None
  }

  /* ---- what the operations do, path by path ---- */

  lemma MkdirAllEffect(fs: Fs, p: Path, env: Env)
    requires WellFormed(fs) && MkdirAll(fs, p, env).Some?
    ensures var r := MkdirAll(fs, p, env).value;
            && WellFormed(r) && IsDirOrRoot(r, p)
            && (forall q :: q in fs ==> q in r && r[q] == fs[q])
            && (forall q :: q in r && q !in fs ==> q != [] && q <= p && r[q].Dir?)
  {
    var r := MkdirAll(fs, p, env).value;
    assert p != [] ==> p in Ancestors(p);
    forall q, k | q in r && 1 <= k < |q| ensures q[..k] in r && r[q[..k]].Dir? {
      if q !in fs { assert q[..k] in Ancestors(p); }
    }
  }

  lemma CreatePartEffect(fs: Fs, p: Path, id: nat, env: Env)
    requires WellFormed(fs) && CreatePart(fs, p, id, env).Some?
    ensures WellFormed(fs[p := Part(id)])
  {
    var r := fs[p := Part(id)];
    forall q, k | q in r && 1 <= k < |q| ensures q[..k] in r && r[q[..k]].Dir? {
      if q == p && k < |p| - 1 {
        var parent := p[..|p| - 1];
        assert parent[..k] == p[..k];
      }
    }
  }

  lemma RemoveFilesEffect(fs: Fs, ps: set<Path>)
    requires WellFormed(fs)
    ensures WellFormed(RemoveFiles(fs, ps))
    ensures forall p :: RemoveFiles(fs, {p}) == RemoveFile(fs, p)
  {
  }

  lemma NothingBelowAbsent(fs: Fs, root: Path, q: Path)
    requires WellFormed(fs) && root !in fs && root != [] && q in fs
    ensures !(root <= q)
  {
    if |root| <= |q| {
      var a := q[..|root|];
      assert root <= q ==> a == root;
      assert |root| == |q| ==> a == q;
      assert a in fs;
    }
  }

  lemma RemoveDirEffect(fs: Fs, root: Path)
    requires WellFormed(fs)
    ensures var r := RemoveDir(fs, root);
            && WellFormed(r)
            && (forall q :: q in r ==> q in fs && r[q] == fs[q])
            && (forall q :: q in fs && !(root <= q) ==> q in r)
            && (root != [] && (root in fs ==> fs[root].Dir?) ==> forall q :: q in r ==> !(root <= q))
  {
    var r := RemoveDir(fs, root);
    forall q, k | q in r && 1 <= k < |q| ensures q[..k] in r && r[q[..k]].Dir? {
      assert root <= q[..k] ==> root <= q;
    }
    if root !in fs && root != [] {
      forall q | q in r ensures !(root <= q) {
        NothingBelowAbsent(fs, root, q);
      }
    }
  }

  lemma RenameFileEffect(fs: Fs, src: Path, dst: Path, id: nat, content: Bytes, env: Env)
    requires WellFormed(fs) && RenameFile(fs, src, dst, id, content, env).Some?
    ensures WellFormed(RenameFile(fs, src, dst, id, content, env).value)
  {
    var r := RenameFile(fs, src, dst, id, content, env).value;
    forall q, k | q in r && 1 <= k < |q| ensures q[..k] in r && r[q[..k]].Dir? {
      if q == dst {
        var parent := dst[..|dst| - 1];
        assert k < |dst| - 1 ==> parent[..k] == dst[..k];
      }
    }
  }

  lemma MoveContents(fs: Fs, src: Path, dst: Path, env: Env)
    requires WellFormed(fs) && MovePath(fs, src, dst, env).Some?
    ensures var r := MovePath(fs, src, dst, env).value;
            && (forall q :: q in r && !(dst <= q) ==> q in fs && r[q] == fs[q] && !(src <= q))
            && (forall q :: q in r && dst <= q ==> src + q[|dst|..] in fs && r[q] == fs[src + q[|dst|..]])
            && (forall q :: q in fs && !(src <= q) ==> q in r && r[q] == fs[q] && !(dst <= q))
            && (forall q :: q in fs && src <= q ==> dst + q[|src|..] in r && r[dst + q[|src|..]] == fs[q])
  {
    var moved := Transplanted(fs, src, dst);
    forall q | q in fs ensures !(dst <= q) {
      NothingBelowAbsent(fs, dst, q);
    }
    forall q | q in fs && src <= q ensures dst + q[|src|..] in moved && moved[dst + q[|src|..]] == fs[q] {
      var m := dst + q[|src|..];
      assert m[|dst|..] == q[|src|..] && src + q[|src|..] == q;
    }
  }

  lemma MoveWellFormed(fs: Fs, src: Path, dst: Path, env: Env)
    requires WellFormed(fs) && MovePath(fs, src, dst, env).Some?
    ensures WellFormed(MovePath(fs, src, dst, env).value)
  {
    hide MovePath;
    var r := MovePath(fs, src, dst, env).value;
    MoveContents(fs, src, dst, env);
    assert src in fs && HasParent(fs, dst) && !(src <= dst) by { MoveFeasible(fs, src, dst, env); }
    forall q, k | q in r && 1 <= k < |q| ensures q[..k] in r && r[q[..k]].Dir? {
      if dst <= q {
        MovedAncestor(fs, src, dst, env, q, k);
      } else {
        assert src <= q[..k] ==> src <= q;
      }
    }
    assert forall q :: q in r ==> q != [];
  }

  lemma MoveFeasible(fs: Fs, src: Path, dst: Path, env: Env)
    requires MovePath(fs, src, dst, env).Some?
    ensures src in fs && HasParent(fs, dst) && dst !in fs && !(src <= dst)
  {
  }

  lemma MovedAncestor(fs: Fs, src: Path, dst: Path, env: Env, q: Path, k: nat)
    requires WellFormed(fs) && MovePath(fs, src, dst, env).Some?
    requires q in MovePath(fs, src, dst, env).value && dst <= q && 1 <= k < |q|
    ensures q[..k] in MovePath(fs, src, dst, env).value && MovePath(fs, src, dst, env).value[q[..k]].Dir?
  {
    hide MovePath, WellFormed;
    MoveContents(fs, src, dst, env);
    MoveFeasible(fs, src, dst, env);
    AncestorsAreDirs(fs, src + q[|dst|..]);
    if k >= |dst| {
      var o := src + q[|dst|..];
      var o' := o[..|src| + k - |dst|];
      assert o'[|src|..] == q[|dst|..k] && q[..k] == dst + o'[|src|..];
    } else {
      var parent := dst[..|dst| - 1];
      assert q[..k] == dst[..k] == parent[..k];
      assert k < |parent| || parent[..k] == parent;
      if parent != [] { AncestorsAreDirs(fs, parent); }
      assert src <= q[..k] ==> src <= dst;
    }
  }

  lemma AncestorsAreDirs(fs: Fs, p: Path)
    requires WellFormed(fs) && p in fs
    ensures p != [] && forall k :: 1 <= k < |p| ==> p[..k] in fs && fs[p[..k]].Dir?
  {
  }

  /* ---- unused names ---- */

  /** (stem, extension with its dot); a leading dot is no extension separator. */
  function SplitExt(name: string, k: nat := |name|): (r: (string, string))
    requires k <= |name|
    ensures r.0 + r.1 == name
  {
    if k == 0 then (name, "")
    else if name[k - 1] == '.' then if k == 1 then (name, "") else (name[..k - 1], name[k - 1..])
    else SplitExt(name, k - 1)
  }

  /** The i-th name tried: `stem.ext`, `stem (1).ext`, `stem (2).ext`, ... */
  function Numbered(stem: string, ext: string, i: nat): string {
    if i == 0 then stem + ext else stem + " (" + Decimal(i) + ")" + ext
  }

  lemma NumberedInjective(stem: string, ext: string, i: nat, j: nat)
    requires Numbered(stem, ext, i) == Numbered(stem, ext, j)
    ensures i == j
  {
    if i == 0 || j == 0 {
      assert |Numbered(stem, ext, 0)| == |stem| + |ext|;
      assert i != 0 ==> |Numbered(stem, ext, i)| > |stem| + |ext|;
      assert j != 0 ==> |Numbered(stem, ext, j)| > |stem| + |ext|;
    } else {
      var n, m := Numbered(stem, ext, i), Numbered(stem, ext, j);
      assert n[|stem| + 2..|n| - |ext| - 1] == Decimal(i);
      assert m[|stem| + 2..|m| - |ext| - 1] == Decimal(j);
      DecimalInjective(i, j);
    }
  }

  lemma NumberedPathInjective(dir: Path, stem: string, ext: string, i: nat, j: nat)
    requires dir + [Numbered(stem, ext, i)] == dir + [Numbered(stem, ext, j)]
    ensures i == j
  {
    assert (dir + [Numbered(stem, ext, i)])[|dir|] == (dir + [Numbered(stem, ext, j)])[|dir|];
    NumberedInjective(stem, ext, i, j);
  }

  /** The least number from `i` on whose name is not taken. Each taken name is
      looked up once, so a finite directory ends the search. */
  function FirstFree(taken: set<Path>, dir: Path, stem: string, ext: string, i: nat): nat
    decreases |taken|
  {
    var c := dir + [Numbered(stem, ext, i)];
    if c !in taken then i
    else
      assert taken - {c} < taken && |taken - {c}| < |taken|;
      FirstFree(taken - {c}, dir, stem, ext, i + 1)
  }

  lemma {:induction false} FirstFreeIsFree(taken: set<Path>, dir: Path, stem: string, ext: string, i: nat)
    ensures var n := FirstFree(taken, dir, stem, ext, i);
            && i <= n
            && dir + [Numbered(stem, ext, n)] !in taken
            && forall j :: i <= j < n ==> dir + [Numbered(stem, ext, j)] in taken
    decreases |taken|
  {
    var c := dir + [Numbered(stem, ext, i)];
    if c in taken {
      assert |taken - {c}| < |taken|;
      FirstFreeIsFree(taken - {c}, dir, stem, ext, i + 1);
      var n := FirstFree(taken, dir, stem, ext, i);
      if dir + [Numbered(stem, ext, n)] == c {
        NumberedPathInjective(dir, stem, ext, i, n);
        assert false;
      }
    }
  }

  /** Where a name with this stem and extension goes: below `dir`, under the
      first of its numbered forms that is unused. */
  function FreePath(fs: Fs, dir: Path, stem: string, ext: string): Path {
    dir + [Numbered(stem, ext, FirstFree(fs.Keys, dir, stem, ext, 0))]
  }

  /** `unique_path` */
  function FreeFilePath(fs: Fs, dir: Path, name: string): Path {
    var (stem, ext) := SplitExt(name);
    FreePath(fs, dir, stem, ext)
  }

  /** `unique_dir_path` */
  function FreeDirPath(fs: Fs, dir: Path, name: string): Path {
    FreePath(fs, dir, name, "")
  }

  /** A chosen path is unused; it is the plain name exactly when that is unused,
      and otherwise carries the smallest number whose name is unused. */
  lemma PlacementIsFresh(fs: Fs, dir: Path, stem: string, ext: string)
    ensures var n := FirstFree(fs.Keys, dir, stem, ext, 0);
            && FreePath(fs, dir, stem, ext) == dir + [Numbered(stem, ext, n)]
            && (forall j: nat :: j < n ==> dir + [Numbered(stem, ext, j)] in fs)
    ensures FreePath(fs, dir, stem, ext) !in fs
    ensures FreePath(fs, dir, stem, ext) == dir + [stem + ext] <==> dir + [stem + ext] !in fs
  {
    FirstFreeIsFree(fs.Keys, dir, stem, ext, 0);
    if FreePath(fs, dir, stem, ext) == dir + [Numbered(stem, ext, 0)] {
      NumberedPathInjective(dir, stem, ext, 0, FirstFree(fs.Keys, dir, stem, ext, 0));
    }
  }

  /** `stem` and `ext` are what comes before and from the last dot of `name` that is not
      its first character; without such a dot all of the name is stem. */
  ghost predicate IsSplit(name: string, stem: string, ext: string) {
    && stem + ext == name
    && (ext == "" <==> forall i :: 0 < i < |name| ==> name[i] != '.')
    && (ext != "" ==> stem != "" && ext[0] == '.' && forall i :: 0 < i < |ext| ==> ext[i] != '.')
  }

  lemma {:induction false} SplitExtIs(name: string, k: nat)
    requires k <= |name| && forall i :: k <= i < |name| ==> name[i] != '.'
    ensures IsSplit(name, SplitExt(name, k).0, SplitExt(name, k).1)
  {
    if k > 0 && name[k - 1] != '.' { SplitExtIs(name, k - 1); }
  }

  /** A name can be split in only one way. */
  lemma SplitOnce(name: string, stem: string, ext: string, stem': string, ext': string)
    requires IsSplit(name, stem, ext) && IsSplit(name, stem', ext')
    ensures stem == stem' && ext == ext'
  {
    var k, k' := |stem|, |stem'|;
    if ext == "" {
      assert stem + "" == stem && stem' + "" == stem';
    } else {
      assert name[k] == '.' && name[k'] == '.';
      forall i | k < i < |name| ensures name[i] != '.' { assert name[i] == ext[i - k]; }
      forall i | k' < i < |name| ensures name[i] != '.' { assert name[i] == ext'[i - k']; }
      assert name[..k] == stem && name[..k'] == stem' && name[k..] == ext && name[k'..] == ext';
    }
  }

  /** Where a file goes whose name is taken: the number comes before the extension, and
      is the least that gives an unused name. */
  lemma ClashingFile(fs: Fs, dir: Path, name: string, stem: string, ext: string) returns (n: nat)
    requires dir + [name] in fs && IsSplit(name, stem, ext)
    ensures n > 0 && FreeFilePath(fs, dir, name) == dir + [stem + " (" + Decimal(n) + ")" + ext]
    ensures FreeFilePath(fs, dir, name) !in fs
    ensures forall j :: 0 < j < n ==> dir + [stem + " (" + Decimal(j) + ")" + ext] in fs
  {
    SplitExtIs(name, |name|);
    SplitOnce(name, stem, ext, SplitExt(name).0, SplitExt(name).1);
    n := TakenName(fs, dir, stem, ext);
  }

  /** A folder gets its number at the end of its name, dots or not. */
  lemma ClashingFolder(fs: Fs, dir: Path, name: string) returns (n: nat)
    requires dir + [name] in fs
    ensures n > 0 && FreeDirPath(fs, dir, name) == dir + [name + " (" + Decimal(n) + ")"]
    ensures FreeDirPath(fs, dir, name) !in fs
    ensures forall j :: 0 < j < n ==> dir + [name + " (" + Decimal(j) + ")"] in fs
  {
    assert name + "" == name;
    n := TakenName(fs, dir, name, "");
    forall j: nat ensures name + " (" + Decimal(j) + ")" + "" == name + " (" + Decimal(j) + ")" {}
  }

  lemma TakenName(fs: Fs, dir: Path, stem: string, ext: string) returns (n: nat)
    requires dir + [stem + ext] in fs
    ensures n > 0 && FreePath(fs, dir, stem, ext) == dir + [stem + " (" + Decimal(n) + ")" + ext]
    ensures FreePath(fs, dir, stem, ext) !in fs
    ensures forall j :: 0 < j < n ==> dir + [stem + " (" + Decimal(j) + ")" + ext] in fs
  {
    PlacementIsFresh(fs, dir, stem, ext);
    n := FirstFree(fs.Keys, dir, stem, ext, 0);
    forall j | 0 < j < n ensures dir + [stem + " (" + Decimal(j) + ")" + ext] in fs {
      assert dir + [Numbered(stem, ext, j)] in fs;
    }
  }

  /** The loop of `unique_path`. */
  method UniquePath(fs: Fs, dir: Path, name: string) returns (path: Path)
    ensures path == FreeFilePath(fs, dir, name) && path !in fs
  {
    var (stem, ext) := SplitExt(name);
    PlacementIsFresh(fs, dir, stem, ext);
    if dir + [name] !in fs {
      return dir + [name];
    }
    path := CountUp(fs, dir, stem, ext);
  }

  /** The loop of `unique_dir_path`. */
  method UniqueDirPath(fs: Fs, dir: Path, name: string) returns (path: Path)
    ensures path == FreeDirPath(fs, dir, name)
  {
    PlacementIsFresh(fs, dir, name, "");
    assert name + "" == name;
    if dir + [name] !in fs {
      return dir + [name];
    }
    path := CountUp(fs, dir, name, "");
  }

  /** Both loops: try ` (1)`, ` (2)`, ... until a name is unused. */
  method CountUp(fs: Fs, dir: Path, stem: string, ext: string) returns (path: Path)
    requires dir + [stem + ext] in fs
    ensures path == FreePath(fs, dir, stem, ext)
  {
    var i := 1;
    ghost var untried := fs.Keys - {dir + [Numbered(stem, ext, 0)]};
    path := dir + [stem + " (" + Decimal(i) + ")" + ext];
    forall j: nat | i <= j ensures dir + [Numbered(stem, ext, j)] != dir + [Numbered(stem, ext, 0)] {
      if dir + [Numbered(stem, ext, j)] == dir + [Numbered(stem, ext, 0)] {
        NumberedPathInjective(dir, stem, ext, j, 0);
      }
    }
    while path in fs
      invariant i >= 1 && path == dir + [Numbered(stem, ext, i)]
      invariant untried <= fs.Keys
      invariant forall j: nat :: i <= j && dir + [Numbered(stem, ext, j)] in fs ==>
                  dir + [Numbered(stem, ext, j)] in untried
      invariant FirstFree(fs.Keys, dir, stem, ext, 0) == FirstFree(untried, dir, stem, ext, i)
      decreases |untried|
    {
      ghost var tried := path;
      i := i + 1;
      path := dir + [stem + " (" + Decimal(i) + ")" + ext];
      forall j: nat | i <= j && dir + [Numbered(stem, ext, j)] in untried
        ensures dir + [Numbered(stem, ext, j)] != tried
      {
        if dir + [Numbered(stem, ext, j)] == tried { NumberedPathInjective(dir, stem, ext, j, i - 1); }
      }
      assert |untried - {tried}| < |untried|;
      untried := untried - {tried};
    }
  }
}
