/** Cleaning of the file names and relative paths a peer sends. */
module Names {
  import opened Basics

  const MAX_TREE_DEPTH := 64
  const MAX_REL_BYTES := 4096

  predicate IsSeparator(c: char) { c == '/' || c == '\\' }

  predicate IsTrimmed(c: char) { c == ' ' || c == '.' }

  /** A character no receiving platform may see in a name. */
  predicate IsForbidden(c: char) {
    || c == '<' || c == '>' || c == ':' || c == '"' || c == '/' || c == '\\'
    || c == '|' || c == '?' || c == '*' || c < ' '
  }

  function CleanChar(c: char): char {
    if IsForbidden(c) then '_' else c
  }

  function CleanChars(s: string): string {
    seq(|s|, i requires 0 <= i < |s| => CleanChar(s[i]))
  }

  /** What follows the last separator, on any platform. */
  function BaseName(s: string): string {
    if s == [] || IsSeparator(s[|s| - 1]) then []
    else BaseName(s[..|s| - 1]) + [s[|s| - 1]]
  }

  function TrimLeft(s: string): string {
    if s != [] && IsTrimmed(s[0]) then TrimLeft(s[1..]) else s
  }

  function TrimRight(s: string): string {
    if s != [] && IsTrimmed(s[|s| - 1]) then TrimRight(s[..|s| - 1]) else s
  }

  function Trim(s: string): string { TrimRight(TrimLeft(s)) }

  function Upper(c: char): char {
    if 'a' <= c <= 'z' then ((c as int) - 32) as char else c
  }

  /** The name up to its first dot, in upper case. */
  function Stem(s: string): string {
    if s == [] || s[0] == '.' then [] else [Upper(s[0])] + Stem(s[1..])
  }

  /** Windows device names, whatever their extension. */
  predicate IsReserved(name: string) {
    var stem := Stem(name);
    || stem == "CON" || stem == "PRN" || stem == "AUX" || stem == "NUL"
    || (|stem| == 4 && (stem[..3] == "COM" || stem[..3] == "LPT") && '1' <= stem[3] <= '9')
  }

  /** `sanitize_name`: a safe basename, or nothing if none is left. */
  function Sanitize(offered: string): Option<string> {
    var name := Trim(CleanChars(BaseName(offered)));
    if name == [] then None
    else if IsReserved(name) then Some("_" + name)
    else Some(name)
  }

  /** What every cleaned name looks like. */
  predicate IsClean(n: string) {
    && n != []
    && !IsTrimmed(n[0]) && !IsTrimmed(n[|n| - 1])
    && (forall i :: 0 <= i < |n| ==> !IsForbidden(n[i]))
    && !IsReserved(n)
  }

  lemma {:induction false} BaseNameOfPlain(s: string)
    requires forall i :: 0 <= i < |s| ==> !IsSeparator(s[i])
    ensures BaseName(s) == s
  {
    if s != [] {
      BaseNameOfPlain(s[..|s| - 1]);
    }
  }

  lemma TrimOfTrimmed(s: string)
    requires s != [] && !IsTrimmed(s[0]) && !IsTrimmed(s[|s| - 1])
    ensures Trim(s) == s
  {
  }

  lemma {:induction false} TrimLeftKeeps(s: string)
    ensures var t := TrimLeft(s); t != [] ==> !IsTrimmed(t[0])
    ensures TrimLeft(s) == [] <==> forall c :: c in s ==> IsTrimmed(c)
    ensures forall c :: c in TrimLeft(s) ==> c in s
  {
    if s != [] && IsTrimmed(s[0]) {
      TrimLeftKeeps(s[1..]);
      assert s == [s[0]] + s[1..];
    } else if s != [] {
      assert s[0] in s;
    }
  }

  lemma {:induction false} TrimRightKeeps(s: string)
    requires s == [] || !IsTrimmed(s[0])
    ensures var t := TrimRight(s); t != [] ==> !IsTrimmed(t[|t| - 1]) && t[0] == s[0]
    ensures TrimRight(s) == [] <==> s == []
    ensures forall c :: c in TrimRight(s) ==> c in s
  {
    if s != [] && IsTrimmed(s[|s| - 1]) {
      TrimRightKeeps(s[..|s| - 1]);
    }
  }

  lemma TrimKeeps(s: string)
    ensures var t := Trim(s); t != [] ==> !IsTrimmed(t[0]) && !IsTrimmed(t[|t| - 1])
    ensures forall c :: c in Trim(s) ==> c in s
    ensures Trim(s) == [] <==> forall c :: c in s ==> IsTrimmed(c)
  {
    TrimLeftKeeps(s);
    TrimRightKeeps(TrimLeft(s));
  }

  /** Prefixing an underscore never yields a device name. */
  lemma UnderscoreNotReserved(name: string)
    ensures !IsReserved("_" + name)
  {
    var n := "_" + name;
    assert Stem(n)[0] == '_';
  }

  lemma SanitizedIsClean(offered: string)
    requires Sanitize(offered).Some?
    ensures IsClean(Sanitize(offered).value)
  {
    var c := CleanChars(BaseName(offered));
    assert forall x :: x in c ==> !IsForbidden(x);
    var name := Trim(c);
    TrimKeeps(c);
    assert forall i :: 0 <= i < |name| ==> name[i] in c;
    UnderscoreNotReserved(name);
  }

  lemma CleanIsFixed(n: string)
    requires IsClean(n)
    ensures Sanitize(n) == Some(n)
  {
    assert forall i :: 0 <= i < |n| ==> IsSeparator(n[i]) ==> IsForbidden(n[i]);
    BaseNameOfPlain(n);
    assert CleanChars(n) == n;
    TrimOfTrimmed(n);
  }

  /** Cleaning twice is cleaning once, and the cleaned names are exactly the
      fixed points of cleaning. */
  lemma SanitizeIdempotent(offered: string)
    ensures Sanitize(offered).Some? ==> Sanitize(Sanitize(offered).value) == Sanitize(offered)
    ensures Sanitize(offered) == Some(offered) <==> IsClean(offered)
  {
    if Sanitize(offered).Some? {
      SanitizedIsClean(offered);
      CleanIsFixed(Sanitize(offered).value);
    }
    if IsClean(offered) {
      CleanIsFixed(offered);
    }
  }

  /** A name is refused exactly when its last component is only dots and
      blanks, which covers "", "." and "..". */
  lemma RefusedNames(offered: string)
    ensures Sanitize(offered).None? <==> forall c :: c in BaseName(offered) ==> IsTrimmed(c)
  {
    var b := BaseName(offered);
    var s := CleanChars(b);
    TrimKeeps(s);
    forall c | c in b ensures CleanChar(c) in s {
      var i :| 0 <= i < |b| && b[i] == c;
      assert s[i] == CleanChar(c);
    }
    forall x | x in s ensures exists c :: c in b && x == CleanChar(c) {
      var i :| 0 <= i < |s| && s[i] == x;
      assert b[i] in b;
    }
  }

  /* ---- what cleaning leaves ---- */

  /** The device names, in capital letters. */
  predicate IsDevice(d: string) {
    || d in {"CON", "PRN", "AUX", "NUL"}
    || (|d| == 4 && d[..3] in {"COM", "LPT"} && d[3] in "123456789")
  }

  /** `n` is device name `d` in small or capital letters, whatever extension follows. */
  predicate SpellsDevice(n: string, d: string) {
    && |d| <= |n| && (|d| < |n| ==> n[|d|] == '.')
    && forall i :: 0 <= i < |d| ==> Upper(n[i]) == d[i]
  }

  lemma {:induction false} StemIs(n: string)
    ensures var k := |Stem(n)|;
            && k <= |n| && (k < |n| ==> n[k] == '.')
            && forall i :: 0 <= i < k ==> Stem(n)[i] == Upper(n[i]) && n[i] != '.'
  {
    if n != [] && n[0] != '.' { StemIs(n[1..]); }
  }

  lemma Digits(c: char)
    ensures c in "123456789" <==> '1' <= c <= '9'
  {
    if '1' <= c <= '9' {
      assert c == '1' || c == '2' || c == '3' || c == '4' || c == '5' || c == '6' || c == '7' || c == '8' || c == '9';
      assert "123456789"[c as int - 49] == c;
    }
  }

  /** The reserved names are the spellings of the device names. */
  lemma ReservedNames(n: string)
    ensures IsReserved(n) <==> exists d :: IsDevice(d) && SpellsDevice(n, d)
  {
    var stem := Stem(n);
    StemIs(n);
    if |stem| == 4 { Digits(stem[3]); }
    if IsReserved(n) { assert IsDevice(stem) && SpellsDevice(n, stem); }
    if d :| IsDevice(d) && SpellsDevice(n, d) {
      if |d| == 4 { Digits(d[3]); }
      forall i | 0 <= i < |d| ensures d[i] != '.' { if i < 3 && |d| == 4 { assert d[..3][i] == d[i]; } }
      assert |stem| == |d|;
      assert stem == d;
    }
  }

  /** `b` is what follows the last separator in `s`. */
  predicate FollowsLast(b: string, s: string) {
    && |b| <= |s| && b == s[|s| - |b|..]
    && (forall i :: 0 <= i < |b| ==> !IsSeparator(b[i]))
    && (|b| < |s| ==> IsSeparator(s[|s| - |b| - 1]))
  }

  lemma {:induction false} BaseNameFollows(s: string)
    ensures FollowsLast(BaseName(s), s)
  {
    if s != [] && !IsSeparator(s[|s| - 1]) { BaseNameFollows(s[..|s| - 1]); }
  }

  /** `n` is `b` from `k` on without the dots and blanks around it, an underscore for every
      character that is forbidden. */
  ghost predicate Spells(n: string, b: string, k: nat) {
    && n != [] && k + |n| <= |b|
    && (forall i :: 0 <= i < |n| ==> n[i] == if IsForbidden(b[k + i]) then '_' else b[k + i])
    && !IsTrimmed(n[0]) && !IsTrimmed(n[|n| - 1])
    && (forall i :: 0 <= i < |b| && (i < k || i >= k + |n|) ==> IsTrimmed(b[i]))
  }

  lemma {:induction false} TrimLeftCuts(s: string)
    ensures var t := TrimLeft(s); |t| <= |s| && t == s[|s| - |t|..]
    ensures forall i :: 0 <= i < |s| - |TrimLeft(s)| ==> IsTrimmed(s[i])
  {
    if s != [] && IsTrimmed(s[0]) { TrimLeftCuts(s[1..]); }
  }

  lemma {:induction false} TrimRightCuts(s: string)
    ensures var t := TrimRight(s); |t| <= |s| && t == s[..|t|]
    ensures forall i :: |TrimRight(s)| <= i < |s| ==> IsTrimmed(s[i])
  {
    if s != [] && IsTrimmed(s[|s| - 1]) { TrimRightCuts(s[..|s| - 1]); }
  }

  lemma TrimSpells(b: string) returns (k: nat)
    requires Trim(CleanChars(b)) != []
    ensures Spells(Trim(CleanChars(b)), b, k)
  {
    var c := CleanChars(b);
    var t, n := TrimLeft(c), Trim(c);
    TrimLeftCuts(c);
    k := |c| - |t|;
    TrimRightCuts(t);
    TrimKeeps(c);
    forall i | 0 <= i < |b| && (i < k || i >= k + |n|) ensures IsTrimmed(b[i]) {
      assert c[i] == CleanChar(b[i]);
      if i >= k {
        assert c[k..][i - k] == t[i - k];
        assert |TrimRight(t)| <= i - k < |t| && IsTrimmed(t[i - k]);
      }
    }
    forall i | 0 <= i < |n| ensures n[i] == CleanChar(b[k + i]) { assert n[i] == t[i] == c[k + i]; }
  }

  /** What a name is cleaned to: its last component without the dots and blanks around it and without
      forbidden characters, after an underscore if that names a device. */
  lemma SanitizedSpells(offered: string) returns (b: string, n: string, k: nat)
    requires Sanitize(offered).Some?
    ensures FollowsLast(b, offered) && Spells(n, b, k)
    ensures Sanitize(offered).value == if exists d :: IsDevice(d) && SpellsDevice(n, d) then "_" + n else n
  {
    hide IsReserved, IsDevice, SpellsDevice, Spells, FollowsLast, CleanChars, Trim, BaseName;
    b := BaseName(offered);
    n := Trim(CleanChars(b));
    BaseNameFollows(offered);
    k := TrimSpells(b);
    ReservedNames(n);
  }

  /* ---- paths inside a folder ---- */

  /** UTF-8 length of a character. */
  function CharBytes(c: char): nat {
    if c as int < 0x80 then 1 else if c as int < 0x800 then 2 else if c as int < 0x10000 then 3 else 4
  }

  function StringBytes(s: string): nat {
    if s == [] then 0 else StringBytes(s[..|s| - 1]) + CharBytes(s[|s| - 1])
  }

  /** The components between separators; an empty string is one empty component. */
  function Split(s: string): (cs: seq<string>)
    ensures cs != []
  {
    if s == [] then [[]]
    else
      var cs, c := Split(s[..|s| - 1]), s[|s| - 1];
      if IsSeparator(c) then cs + [[]] else cs[|cs| - 1 := cs[|cs| - 1] + [c]]
  }

  /** The components joined by slashes, as the sender writes them. */
  function Join(cs: seq<string>): string
    requires cs != []
  {
    if |cs| == 1 then cs[0] else Join(cs[..|cs| - 1]) + "/" + cs[|cs| - 1]
  }

  function SanitizeAll(cs: seq<string>): Option<seq<string>> {
    if cs == [] then Some([])
    else
      var front, last := SanitizeAll(cs[..|cs| - 1]), Sanitize(cs[|cs| - 1]);
      if front.None? || last.None? || cs[|cs| - 1] == [] then None
      else Some(front.value + [last.value])
  }

  /** `sanitize_rel_path`: the components below a folder's root. */
  function SanitizeRel(rel: string): Option<seq<string>> {
    if rel == [] || StringBytes(rel) > MAX_REL_BYTES || |Split(rel)| > MAX_TREE_DEPTH then None
    else SanitizeAll(Split(rel))
  }

  /** The loop of `sanitize_rel_path`, leaving at the first bad component. */
  method SanitizeRelPath(rel: string) returns (out: Option<seq<string>>)
    ensures out == SanitizeRel(rel)
  {
    if rel == [] || StringBytes(rel) > MAX_REL_BYTES {
      return None;
    }
    var components, path, depth := Split(rel), [], 0;
    for i := 0 to |components|
      invariant depth == i == |path| <= MAX_TREE_DEPTH
      invariant SanitizeAll(components[..i]) == Some(path)
    {
      depth := depth + 1;
      if components[i] == [] || depth > MAX_TREE_DEPTH {
        if depth <= MAX_TREE_DEPTH { SanitizeAllStep(components, i); }
        return None;
      }
      SanitizeAllStep(components, i);
      var c := Sanitize(components[i]);
      if c.None? {
        return None;
      }
      path := path + [c.value];
    }
    assert components[..|components|] == components;
    return Some(path);
  }

  /** One step of the loop; a component that is refused refuses the path. */
  lemma {:induction false} SanitizeAllStep(cs: seq<string>, k: nat)
    requires k < |cs| && SanitizeAll(cs[..k]).Some?
    ensures (cs[k] == [] || Sanitize(cs[k]).None?) ==> SanitizeAll(cs).None?
    ensures cs[k] != [] && Sanitize(cs[k]).Some? ==>
              SanitizeAll(cs[..k + 1]) == Some(SanitizeAll(cs[..k]).value + [Sanitize(cs[k]).value])
    decreases |cs|
  {
    var front := cs[..|cs| - 1];
    if k < |front| {
      assert front[..k] == cs[..k] && front[..k + 1] == cs[..k + 1];
      SanitizeAllStep(front, k);
    } else {
      assert cs[..k + 1] == cs && front == cs[..k];
    }
  }

  lemma {:induction false} SanitizeAllClean(cs: seq<string>)
    requires SanitizeAll(cs).Some?
    ensures |SanitizeAll(cs).value| == |cs|
    ensures forall i :: 0 <= i < |cs| ==> IsClean(SanitizeAll(cs).value[i])
  {
    if cs != [] {
      SanitizeAllClean(cs[..|cs| - 1]);
      SanitizedIsClean(cs[|cs| - 1]);
    }
  }

  /** An accepted path has 1 to 64 components, each a fixed point of cleaning
      without separators and neither "." nor "..": joined below a root it
      cannot leave it, and cleaning its last component again (as the receiver
      does when it opens the file) changes nothing. */
  lemma AcceptedPathStaysInside(rel: string)
    requires SanitizeRel(rel).Some?
    ensures 1 <= |SanitizeRel(rel).value| <= 64
    ensures forall i :: 0 <= i < |SanitizeRel(rel).value| ==>
              var c := SanitizeRel(rel).value[i];
              IsClean(c) && Sanitize(c) == Some(c) && c[0] != '.' && forall k :: 0 <= k < |c| ==> !IsSeparator(c[k])
  {
    SanitizeAllClean(Split(rel));
    var cs := SanitizeRel(rel).value;
    forall i | 0 <= i < |cs|
      ensures IsClean(cs[i]) && Sanitize(cs[i]) == Some(cs[i]) && cs[i][0] != '.'
      ensures forall k :: 0 <= k < |cs[i]| ==> !IsSeparator(cs[i][k])
    {
      CleanIsFixed(cs[i]);
      assert forall k :: 0 <= k < |cs[i]| ==> IsSeparator(cs[i][k]) ==> IsForbidden(cs[i][k]);
    }
  }

  lemma {:induction false} SplitPlain(c: string)
    requires forall k :: 0 <= k < |c| ==> !IsSeparator(c[k])
    ensures Split(c) == [c]
  {
    if c != [] {
      SplitPlain(c[..|c| - 1]);
      assert c == c[..|c| - 1] + [c[|c| - 1]];
    }
  }

  lemma {:induction false} SplitAppend(s: string, c: string)
    requires forall k :: 0 <= k < |c| ==> !IsSeparator(c[k])
    ensures Split(s + "/" + c) == Split(s) + [c]
  {
    var t := s + "/" + c;
    if c == [] {
      assert t[..|t| - 1] == s;
    } else {
      SplitAppend(s, c[..|c| - 1]);
      assert t[..|t| - 1] == s + "/" + c[..|c| - 1];
      assert c == c[..|c| - 1] + [c[|c| - 1]];
    }
  }

  /** The receiver recovers the components the sender joined. */
  lemma {:induction false} SplitJoin(cs: seq<string>)
    requires cs != []
    requires forall i, k :: 0 <= i < |cs| && 0 <= k < |cs[i]| ==> !IsSeparator(cs[i][k])
    ensures Split(Join(cs)) == cs
  {
    if |cs| == 1 {
      SplitPlain(cs[0]);
    } else {
      SplitJoin(cs[..|cs| - 1]);
      SplitAppend(Join(cs[..|cs| - 1]), cs[|cs| - 1]);
    }
  }

  lemma {:induction false} SanitizeAllFixed(cs: seq<string>)
    requires forall i :: 0 <= i < |cs| ==> IsClean(cs[i])
    ensures SanitizeAll(cs) == Some(cs)
  {
    hide Sanitize, IsClean;
    if cs != [] {
      SanitizeAllFixed(cs[..|cs| - 1]);
      CleanIsFixed(cs[|cs| - 1]);
      CleanNotEmpty(cs[|cs| - 1]);
      assert cs[..|cs| - 1] + [cs[|cs| - 1]] == cs;
    }
  }

  lemma CleanNotEmpty(n: string)
    requires IsClean(n)
    ensures n != []
  {
  }

  /** A path of clean names within the limits arrives component for component. */
  lemma CleanPathArrives(cs: seq<string>)
    requires 1 <= |cs| <= MAX_TREE_DEPTH
    requires forall i :: 0 <= i < |cs| ==> IsClean(cs[i])
    requires StringBytes(Join(cs)) <= MAX_REL_BYTES
    ensures SanitizeRel(Join(cs)) == Some(cs)
  {
    forall i, k | 0 <= i < |cs| && 0 <= k < |cs[i]| ensures !IsSeparator(cs[i][k]) {
      assert IsSeparator(cs[i][k]) ==> IsForbidden(cs[i][k]);
    }
    SplitJoin(cs);
    assert Split([]) == [[]] && cs[0] != [];
    SanitizeAllFixed(cs);
  }
}
