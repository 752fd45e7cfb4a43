/** Which of several simultaneous connections between two machines is kept, and
    what the user is told about it. */
module Links {
  import opened Basics

  /** Order of fingerprints, character by character. */
  predicate Less(a: string, b: string) {
    if b == "" then false
    else if a == "" then true
    else a[0] < b[0] || (a[0] == b[0] && Less(a[1..], b[1..]))
  }

  lemma {:induction false} LessIsTotal(a: string, b: string)
    ensures a == b <==> !Less(a, b) && !Less(b, a)
    ensures !(Less(a, b) && Less(b, a))
  {
    if a != "" && b != "" {
      LessIsTotal(a[1..], b[1..]);
      assert a == [a[0]] + a[1..] && b == [b[0]] + b[1..];
    }
  }

  /** `orientation_prefers` */
  predicate Prefers(local: string, outbound: bool, peer: string) {
    outbound == Less(local, peer)
  }

  /** The two ends of one connection, outbound at exactly one of them, agree on it
      exactly when their fingerprints differ; and of two connections in opposite
      directions an end prefers exactly one. */
  lemma EndsAgree(a: string, b: string, dialedByA: bool)
    ensures (Prefers(a, dialedByA, b) <==> Prefers(b, !dialedByA, a)) <==> a != b
    ensures Prefers(a, dialedByA, b) <==> !Prefers(a, !dialedByA, b)
  {
    LessIsTotal(a, b);
  }

  datatype Conn = Conn(id: nat, peerFp: string, peerName: string, outbound: bool)

  datatype Status = Status(connected: bool, peerName: Option<string>)

  /** What the connections report to the actor. */
  datatype Internal = Established(conn: Conn) | Closed(id: nat)

  /** The actor's link choice; `cancelled` and `told` are what it did and said. */
  datatype Choice = Choice(localFp: string, active: Option<Conn>, lastStatus: Option<Status>, cancelled: seq<nat>,
                           told: seq<Status>)
  {
    predicate Likes(c: Conn) { Prefers(localFp, c.outbound, c.peerFp) }
  }

  /** `emit_sync_status` */
  function Emit(c: Choice, s: Status): Choice {
    if c.lastStatus == Some(s) then c else c.(lastStatus := Some(s), told := c.told + [s])
  }

  /** `handle_internal`, for connections */
  function Handle(c: Choice, e: Internal): Choice {
    match e
    case Established(new_) =>
      if c.active.None? || c.Likes(new_) || !c.Likes(c.active.value) then
        var c1 := if c.active.Some? then c.(cancelled := c.cancelled + [c.active.value.id]) else c;
        Emit(c1.(active := Some(new_)), Status(true, Some(new_.peerName)))
      else c.(cancelled := c.cancelled + [new_.id])
    case Closed(id) =>
      if c.active.Some? && c.active.value.id == id then Emit(c.(active := None), Status(false, None)) else c
  }

  function Run(c: Choice, es: seq<Internal>): Choice {
    if es == [] then c else Handle(Run(c, es[..|es| - 1]), es[|es| - 1])
  }

  predicate IsNew(c: Choice) { c.active == None && c.lastStatus == None && c.cancelled == [] && c.told == [] }

  /* ---- the reported status ---- */

  /** The last status told is the one that holds, and none was told twice in a row. */
  predicate StatusOk(c: Choice) {
    && c.lastStatus == (if c.told == [] then None else Some(c.told[|c.told| - 1]))
    && (c.active.Some? ==> c.lastStatus == Some(Status(true, Some(c.active.value.peerName))))
    && (c.active.None? ==> c.told == [] || c.lastStatus == Some(Status(false, None)))
    && (forall i :: 0 < i < |c.told| ==> c.told[i - 1] != c.told[i])
  }

  lemma {:induction false} StatusMatchesActive(c: Choice, es: seq<Internal>)
    requires IsNew(c)
    ensures StatusOk(Run(c, es))
  {
    if es != [] {
      StatusMatchesActive(c, es[..|es| - 1]);
    }
  }

  /* ---- the choice ---- */

  /** A preferred connection is replaced only by another preferred one, and never
      cancelled for the sake of one that is not. */
  lemma PreferredStays(c: Choice, e: Internal)
    requires c.active.Some? && c.Likes(c.active.value) && e != Closed(c.active.value.id)
    ensures var r := Handle(c, e);
            && r.active.Some? && r.Likes(r.active.value)
            && (r.active != c.active ==> e.Established? && c.Likes(e.conn) && r.active == Some(e.conn))
            && (e.Established? && !c.Likes(e.conn) ==> r.active == c.active && r.cancelled == c.cancelled + [e.conn.id])
  {
  }

  /** Of the connection that is held and one that comes up exactly one survives, and the other is
      cancelled: the new one, unless only the held one is preferred. */
  lemma OneSurvives(c: Choice, new_: Conn)
    ensures var r := Handle(c, Established(new_));
            && (r.active == Some(new_) || r.active == c.active)
            && (c.active.Some? && c.active.value != new_ ==>
                  && (r.active == c.active <==> c.Likes(c.active.value) && !c.Likes(new_))
                  && r.cancelled == c.cancelled + [if r.active == c.active then new_.id else c.active.value.id])
            && (c.active.None? ==> r.active == Some(new_) && r.cancelled == c.cancelled)
  {
  }

  /** A connection that came up is held, unless it closed or was cancelled. */
  lemma {:induction false} NoneLeftOver(c: Choice, es: seq<Internal>, p: nat)
    requires IsNew(c) && Closed(p) !in es && exists i :: 0 <= i < |es| && es[i].Established? && es[i].conn.id == p
    ensures var r := Run(c, es); (r.active.Some? && r.active.value.id == p) || p in r.cancelled
  {
    var front, e := es[..|es| - 1], es[|es| - 1];
    assert es == front + [e];
    if i :| 0 <= i < |front| && es[i].Established? && es[i].conn.id == p {
      assert front[i] == es[i];
      NoneLeftOver(c, front, p);
    }
  }

  /** The preferred connection that came up last, unless it was closed since. */
  function Holding(c: Choice, es: seq<Internal>): Option<nat> {
    if es == [] then None
    else
      var front, e := Holding(c, es[..|es| - 1]), es[|es| - 1];
      match e
      case Established(conn) => if c.Likes(conn) then Some(conn.id) else front
      case Closed(id) => if front == Some(id) then None else front
  }

  /** Whatever comes and goes, in whatever order, an end holds a preferred
      connection exactly if `Holding` names one, and then it is that one. */
  lemma {:induction false} HeldIsLastPreferred(c: Choice, es: seq<Internal>)
    requires IsNew(c)
    ensures var r := Run(c, es);
            && r.localFp == c.localFp
            && (r.active.Some? && c.Likes(r.active.value) <==> Holding(c, es).Some?)
            && (Holding(c, es).Some? ==> r.active.value.id == Holding(c, es).value)
  {
    if es != [] {
      HeldIsLastPreferred(c, es[..|es| - 1]);
    }
  }

  predicate ComesUp(c: Choice, es: seq<Internal>, p: nat) {
    exists i :: 0 <= i < |es| && es[i].Established? && c.Likes(es[i].conn) && es[i].conn.id == p
  }

  /** A preferred connection that came up and never closed is held or was cancelled. */
  lemma {:induction false} HeldOrCancelled(c: Choice, es: seq<Internal>, p: nat)
    requires IsNew(c) && ComesUp(c, es, p) && Closed(p) !in es
    ensures Holding(c, es) == Some(p) || p in Run(c, es).cancelled
  {
    var front, e := es[..|es| - 1], es[|es| - 1];
    assert es == front + [e];
    HeldIsLastPreferred(c, front);
    if ComesUp(c, front, p) {
      HeldOrCancelled(c, front, p);
    }
  }

  /** The only preferred connection is never cancelled. */
  lemma {:induction false} OnlyPreferredStays(c: Choice, es: seq<Internal>, p: nat)
    requires IsNew(c)
    requires forall i :: 0 <= i < |es| && es[i].Established? ==> (c.Likes(es[i].conn) <==> es[i].conn.id == p)
    requires forall i, j :: 0 <= i < j < |es| && es[i].Established? && es[j].Established? ==>
               es[i].conn.id != es[j].conn.id
    ensures var r := Run(c, es);
            && r.localFp == c.localFp && p !in r.cancelled
            && (r.active.Some? ==> (c.Likes(r.active.value) <==> r.active.value.id == p))
  {
    if es != [] {
      var front, e := es[..|es| - 1], es[|es| - 1];
      assert es == front + [e] && es[|front|] == e;
      forall i | 0 <= i < |front| ensures front[i] == es[i] {}
      OnlyPreferredStays(c, front, p);
      NeverUp(c, front, p);
    }
  }

  /** A connection that did not come up is neither held nor cancelled. */
  lemma {:induction false} NeverUp(c: Choice, es: seq<Internal>, p: nat)
    requires IsNew(c)
    ensures var r := Run(c, es);
            (forall i :: 0 <= i < |es| && es[i].Established? ==> es[i].conn.id != p)
            ==> p !in r.cancelled && (r.active.Some? ==> r.active.value.id != p)
  {
    if es != [] {
      NeverUp(c, es[..|es| - 1], p);
    }
  }

  /* ---- both ends ---- */

  /** One connection between two machines. */
  datatype Link = Link(id: nat, dialedByA: bool)

  /** What happens to the links, as seen at one end. */
  datatype LinkEvent = Up(link: Link) | Gone(link: Link)

  /** One end: whether it is machine A, and the fingerprints at both ends. */
  datatype End = End(isA: bool, local: string, peer: string, peerName: string) {
    function New(): Choice { Choice(local, None, None, [], []) }

    predicate Likes(l: Link) { Prefers(local, l.dialedByA == isA, peer) }

    /** The events as this end's connections report them. */
    function Reports(es: seq<LinkEvent>): seq<Internal> {
      seq(|es|, i requires 0 <= i < |es| =>
        match es[i]
        case Up(l) => Established(Conn(l.id, peer, peerName, l.dialedByA == isA))
        case Gone(l) => Closed(l.id))
    }

    function After(es: seq<LinkEvent>): Choice { Run(New(), Reports(es)) }

    /** This end holds a preferred link, namely the one with this id. */
    predicate Holds(es: seq<LinkEvent>, id: nat) {
      var active := After(es).active;
      active.Some? && active.value.id == id && After(es).Likes(active.value)
    }
  }

  /** The preferred link that came up last at an end, unless it went away since. */
  function LastPreferred(e: End, es: seq<LinkEvent>): Option<Link> {
    if es == [] then None
    else
      var before := LastPreferred(e, es[..|es| - 1]);
      match es[|es| - 1]
      case Up(l) => if e.Likes(l) then Some(l) else before
      case Gone(l) => if before.Some? && before.value.id == l.id then None else before
  }

  lemma HoldsLast(e: End, es: seq<LinkEvent>, id: nat)
    ensures e.Holds(es, id) <==> LastPreferred(e, es).Some? && LastPreferred(e, es).value.id == id
  {
    HeldIsLastPreferred(e.New(), e.Reports(es));
    LastIsHolding(e, es);
  }

  lemma {:induction false} LastIsHolding(e: End, es: seq<LinkEvent>)
    ensures var l := LastPreferred(e, es);
            && (l.Some? ==> Up(l.value) in es && e.Likes(l.value))
            && Holding(e.New(), e.Reports(es)) == if l.Some? then Some(l.value.id) else None
  {
    if es != [] {
      var front := es[..|es| - 1];
      assert es == front + [es[|es| - 1]];
      LastIsHolding(e, front);
      assert e.Reports(es)[..|es| - 1] == e.Reports(front);
    }
  }

  /** Different fingerprints, and each end knows the other's. */
  predicate Opposite(a: End, b: End) {
    a.isA && !b.isA && a.local == b.peer && a.peer == b.local && a.local != b.local
  }

  lemma SamePreference(a: End, b: End, l: Link)
    requires Opposite(a, b)
    ensures a.Likes(l) <==> b.Likes(l)
  {
    EndsAgree(a.local, b.local, l.dialedByA);
  }

  /** Two machines connect to each other at once, over any number of links, which come
      and go in any order at either end: the two ends hold the same preferred link if and
      only if the preferred link that came up last is the same at both and gone at neither. */
  lemma ConvergeExactly(a: End, b: End, atA: seq<LinkEvent>, atB: seq<LinkEvent>)
    requires Opposite(a, b)
    ensures (exists id :: a.Holds(atA, id) && b.Holds(atB, id)) <==>
            && LastPreferred(a, atA).Some? && LastPreferred(b, atB).Some?
            && LastPreferred(a, atA).value.id == LastPreferred(b, atB).value.id
  {
    forall id: nat
      ensures a.Holds(atA, id) <==> LastPreferred(a, atA).Some? && LastPreferred(a, atA).value.id == id
      ensures b.Holds(atB, id) <==> LastPreferred(b, atB).Some? && LastPreferred(b, atB).value.id == id
    {
      HoldsLast(a, atA, id);
      HoldsLast(b, atB, id);
    }
    if LastPreferred(a, atA).Some? { assert a.Holds(atA, LastPreferred(a, atA).value.id); }
  }

  /** Every link comes up at most once, and `p` is the only preferred one. */
  predicate SinglePreferred(e: End, es: seq<LinkEvent>, p: Link) {
    && (forall i :: 0 <= i < |es| && es[i].Up? ==> (e.Likes(es[i].link) <==> es[i].link == p))
    && (forall i :: 0 <= i < |es| && es[i].link.id == p.id ==> es[i] == Up(p))
    && (forall i, j :: 0 <= i < j < |es| && es[i].Up? && es[j].Up? ==> es[i].link.id != es[j].link.id)
  }

  /** With one preferred link the ends converge: in whatever order the links come up
      and others go away at the two ends, neither end cancels that link, and both
      hold it once they have seen it. */
  lemma LinksConverge(a: End, b: End, p: Link, atA: seq<LinkEvent>, atB: seq<LinkEvent>)
    requires Opposite(a, b) && a.Likes(p)
    requires SinglePreferred(a, atA, p) && SinglePreferred(b, atB, p)
    ensures p.id !in a.After(atA).cancelled && p.id !in b.After(atB).cancelled
    ensures Up(p) in atA <==> a.Holds(atA, p.id)
    ensures Up(p) in atB <==> b.Holds(atB, p.id)
    ensures Up(p) in atA && Up(p) in atB ==> exists id :: a.Holds(atA, id) && b.Holds(atB, id)
  {
    SamePreference(a, b, p);
    OneEnd(a, p, atA);
    OneEnd(b, p, atB);
  }

  lemma OneEnd(e: End, p: Link, es: seq<LinkEvent>)
    requires e.Likes(p) && SinglePreferred(e, es, p)
    ensures p.id !in e.After(es).cancelled
    ensures Up(p) in es <==> e.Holds(es, p.id)
  {
    var c, rs := e.New(), e.Reports(es);
    HoldsLast(e, es, p.id);
    LastIsHolding(e, es);
    forall i | 0 <= i < |rs| && rs[i].Established? ensures c.Likes(rs[i].conn) <==> rs[i].conn.id == p.id {
      assert es[i].Up?;
      if es[i].link.id == p.id { assert es[i] == Up(p); }
    }
    OnlyPreferredStays(c, rs, p.id);
    if Up(p) in es { LastSeen(e, p, es); }
  }

  lemma {:induction false} LastSeen(e: End, p: Link, es: seq<LinkEvent>)
    requires e.Likes(p) && Up(p) in es
    requires forall i :: 0 <= i < |es| && es[i].Up? && e.Likes(es[i].link) ==> es[i].link == p
    requires forall i :: 0 <= i < |es| && es[i].Gone? ==> es[i].link.id != p.id
    ensures LastPreferred(e, es) == Some(p)
  {
    var front, l := es[..|es| - 1], es[|es| - 1];
    assert es == front + [l] && es[|front|] == l;
    if !(l.Up? && e.Likes(l.link)) {
      forall i | 0 <= i < |front| ensures front[i] == es[i] {}
      LastSeen(e, p, front);
    }
  }

  /** No preferred link goes away. */
  predicate PreferredStayUp(e: End, es: seq<LinkEvent>) {
    forall i, j :: 0 <= i < |es| && 0 <= j < |es| && es[i].Up? && es[j].Gone? && e.Likes(es[i].link) ==>
      es[i].link.id != es[j].link.id
  }

  /** With several preferred links the ends can each cancel the one the other
      keeps: if `p` and `q` come up at both ends, last `q` at one and last `p` at
      the other, each end cancels what the other holds; and when the cancelled
      links go away, neither end is left with any. */
  lemma CrossedLinksAreLost(a: End, b: End, p: Link, q: Link, atA: seq<LinkEvent>, atB: seq<LinkEvent>)
    requires Opposite(a, b) && p.id != q.id && PreferredStayUp(a, atA) && PreferredStayUp(b, atB)
    requires LastPreferred(a, atA) == Some(q) && LastPreferred(b, atB) == Some(p) && Up(p) in atA && Up(q) in atB
    ensures a.Holds(atA, q.id) && b.Holds(atB, p.id)
    ensures p.id in a.After(atA).cancelled && q.id in b.After(atB).cancelled
    ensures a.After(atA + [Gone(q)]).active == None && b.After(atB + [Gone(p)]).active == None
  {
    LastIsHolding(a, atA);
    LastIsHolding(b, atB);
    SamePreference(a, b, p);
    SamePreference(a, b, q);
    Crossed(a, p, q, atA);
    Crossed(b, q, p, atB);
  }

  lemma Crossed(e: End, p: Link, q: Link, es: seq<LinkEvent>)
    requires PreferredStayUp(e, es) && e.Likes(p) && LastPreferred(e, es) == Some(q) && Up(p) in es && p.id != q.id
    ensures e.Holds(es, q.id) && p.id in e.After(es).cancelled
    ensures e.After(es + [Gone(q)]).active == None
  {
    var rs := e.Reports(es);
    HoldsLast(e, es, q.id);
    LastIsHolding(e, es);
    var i :| 0 <= i < |es| && es[i] == Up(p);
    assert rs[i].Established? && e.New().Likes(rs[i].conn) && rs[i].conn.id == p.id;
    forall j | 0 <= j < |rs| && es[j].Gone? ensures es[i].link.id != es[j].link.id {}
    HeldOrCancelled(e.New(), rs, p.id);
    GoneLeavesNone(e, es, q);
  }

  lemma GoneLeavesNone(e: End, es: seq<LinkEvent>, q: Link)
    requires e.Holds(es, q.id)
    ensures e.After(es + [Gone(q)]).active == None
  {
    assert e.Reports(es + [Gone(q)])[..|es|] == e.Reports(es);
  }

  /** The actor as the object it is. */
  class Actor {
    const localFp: string
    var active: Option<Conn>
    /** suppresses repeated statuses */
    var lastSyncStatus: Option<Status>
    var cancelled: seq<nat>
    var told: seq<Status>

    ghost function View(): Choice
      reads this
    {
      Choice(localFp, active, lastSyncStatus, cancelled, told)
    }

    constructor (localFp: string)
      ensures IsNew(View()) && this.localFp == localFp
    {
      this.localFp := localFp;
      active, lastSyncStatus, cancelled, told := None, None, [], [];
    }

    method EmitSyncStatus(connected: bool, peerName: Option<string>)
      modifies this`lastSyncStatus, this`told
      ensures View() == Emit(old(View()), Status(connected, peerName))
    {
      var status := Status(connected, peerName);
      if lastSyncStatus == Some(status) {
        return;
      }
      lastSyncStatus := Some(status);
      told := told + [status];
    }

    method HandleInternal(e: Internal)
      modifies this
      ensures View() == Handle(old(View()), e)
    {
      match e
      case Established(conn) =>
        var keepNew := active.None?
          || Prefers(localFp, conn.outbound, conn.peerFp)
             || !Prefers(localFp, active.value.outbound, active.value.peerFp);
        if keepNew {
          if active.Some? {
            cancelled := cancelled + [active.value.id];
          }
          active := Some(conn);
          EmitSyncStatus(true, Some(conn.peerName));
        } else {
          cancelled := cancelled + [conn.id];
        }
      case Closed(id) =>
        if active.Some? && active.value.id == id {
          active := None;
          EmitSyncStatus(false, None);
        }
    }
  }
}
