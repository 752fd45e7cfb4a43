/** What each operation of the registry makes of the clients and the incoming
    connections: who is active afterwards, and that all else is as it was. */
module Clients {
  import opened Basics
  import opened Events
  import opened Tuning
  import opened Capturing
  import opened Forwarding
  import opened Registry
  import R = Registry

  /** `c`, active or not. */
  function Marked(c: Client, active: bool): Client { c.(active := active) }

  /** The clients are those of `s`, and of these `active` says which are active. */
  ghost predicate SameBut(s: Service, r: Service, active: Handle -> bool) {
    && |r.slots| == |s.slots|
    && (forall k: Handle :: r.Has(k) <==> s.Has(k))
    && (forall k: Handle :: s.Has(k) ==> r.slots[k].value == Marked(s.slots[k].value, active(k)))
  }

  /** Nothing else changed but what was asked. */
  predicate OnlyClients(s: Service, r: Service) {
    r.incoming == s.incoming && r.conns == s.conns && r.nextTrigger == s.nextTrigger
  }

  predicate At(s: Service, h: Handle, pos: Position) { s.Has(h) && s.slots[h].value.pos == pos }

  /* ---- single operations ---- */

  /** Deactivating a client changes that client alone. */
  lemma Deactivated(s: Service, h: Handle)
    ensures var r := Do(s, OpActivate(h, false));
            OnlyClients(s, r) && SameBut(s, r, (k: Handle) => k != h && s.Active(k))
  {
  }

  /** Activating a client makes it active, and of the others exactly the one at its edge inactive. */
  lemma Activated(s: Service, h: Handle)
    requires OnePerEdge(s)
    ensures var r := Do(s, OpActivate(h, true));
            && OnlyClients(s, r)
            && (s.Has(h) ==> SameBut(s, r, (k: Handle) => k == h || (s.Active(k) && !At(s, k, s.slots[h].value.pos))))
            && (!s.Has(h) ==> r == s)
  {
    hide Deactivate;
    if s.Has(h) {
      var pos := s.slots[h].value.pos;
      var other := ClientAt(s.slots, pos);
      if other.Some? { Deactivated(s, other.value); }
      var s1 := if other.Some? && other.value != h then Do(s, OpActivate(other.value, false)) else s;
      forall k: Handle | s.Has(k) && k != h ensures s1.Active(k) <==> s.Active(k) && !At(s, k, pos) {
        if other.Some? && s.Active(k) && At(s, k, pos) { assert s.Active(other.value); }
      }
    }
  }

  /** Moving a client: it stays as active as it was, and an active client makes way at its new edge. */
  lemma Moved(s: Service, h: Handle, pos: Position)
    requires OnePerEdge(s)
    ensures var r := Do(s, OpUpdatePos(h, pos));
            && OnlyClients(s, r)
            && (!s.Has(h) ==> r == s)
            && (s.Has(h) ==>
                  && |r.slots| == |s.slots| && (forall k: Handle :: r.Has(k) <==> s.Has(k))
                  && r.slots[h].value == s.slots[h].value.(pos := pos)
                  && forall k: Handle :: s.Has(k) && k != h ==>
                       r.slots[k].value == Marked(s.slots[k].value,
                                                  s.Active(k) && !(s.Active(h) && At(s, k, pos))))
  {
    hide R.Activate, Deactivate;
    if s.Has(h) {
      if s.slots[h].value.pos == pos {
        forall k: Handle | s.Has(k) && k != h && s.Active(k) && s.Active(h) ensures !At(s, k, pos) {}
      } else if s.Active(h) {
        var s1 := s.With(h, s.slots[h].value.(pos := pos));
        Deactivated(s1, h);
        var s2 := Do(s1, OpActivate(h, false));
        forall k: Handle ensures s2.Active(k) <==> k != h && s.Active(k) {}
        Activated(s2, h);
      }
    }
  }

  /** New tuning changes nothing else, and is what the capture is told. */
  lemma Retuned(s: Service, h: Handle, tuning: ClientTuning)
    ensures var r := Do(s, OpUpdateTuning(h, tuning));
            && OnlyClients(s, r)
            && (!s.Has(h) ==> r == s)
            && (s.Has(h) ==>
                  && r.slots == s.slots[h := Some(s.slots[h].value.(tuning := tuning))]
                  && r.requests == s.requests + [DoSetTuning(h, tuning)])
  {
  }

  /** Removing a client leaves its handle vacant and all others as they are. */
  lemma Removed(s: Service, h: Handle)
    ensures var r := Do(s, OpDelete(h));
            && OnlyClients(s, r) && !r.Has(h) && |r.slots| == |s.slots|
            && forall k: Handle :: k != h && k < |s.slots| ==> r.slots[k] == s.slots[k]
  {
  }

  /** A new client is inactive, under a handle nobody had; all others are as they are. */
  lemma Added(s: Service, c: Client)
    ensures var (r, h) := Add(s, c);
            && OnlyClients(s, r) && r.requests == s.requests
            && !s.Has(h) && r.Has(h) && r.slots[h].value == Marked(c, false)
            && forall k: Handle :: k != h ==> (r.Has(k) <==> s.Has(k)) && (s.Has(k) ==> r.slots[k] == s.slots[k])
  {
  }

  /** Pairing: the first client that is the peer, or a new one if none is, is active afterwards
      and knows the address; of the others exactly the one at its edge is not any more. */
  lemma Paired(s: Service, name: string, addr: nat, initiated: bool) returns (h: Handle)
    requires OnePerEdge(s)
    ensures var r := Do(s, OpPaired(name, addr, initiated));
            && OnlyClients(s, r) && r.Active(h) && addr in r.slots[h].value.fixIps
            && (forall k: Handle :: k != h ==> (r.Has(k) <==> s.Has(k)))
            && (forall k: Handle :: s.Has(k) && k != h ==>
                  r.slots[k].value == Marked(s.slots[k].value, s.Active(k) && !At(s, k, r.slots[h].value.pos)))
            && (s.Has(h) ==>
                  && (addr in s.slots[h].value.fixIps || s.slots[h].value.hostname == Some(name))
                  && (forall k: Handle :: k < h && s.Has(k) ==>
                        addr !in s.slots[k].value.fixIps && s.slots[k].value.hostname != Some(name))
                  && var old_ := s.slots[h].value;
                  && r.slots[h].value == old_.(active := true,
                                               fixIps := if addr in old_.fixIps then old_.fixIps
                                                         else old_.fixIps + [addr]))
            && (!s.Has(h) ==>
                  && (forall k: Handle :: s.Has(k) ==>
                        addr !in s.slots[k].value.fixIps && s.slots[k].value.hostname != Some(name))
                  && r.slots[h].value == Client(Some(name), [addr], if initiated then Left else Right,
                                                ClientTuning(DEFAULT_SPEED, IDENTITY), true))
  {
    hide R.Activate, Add;
    match FindPeer(s.slots, name, addr)
    case Some(k) =>
      h := k;
      FirstPeer(s.slots, name, addr, 0);
      var c := s.slots[h].value;
      var s1 := s.With(h, if addr in c.fixIps then c else c.(fixIps := c.fixIps + [addr]));
      forall k: Handle ensures s1.Active(k) <==> s.Active(k) {}
      Activated(s1, h);
    case None =>
      var c := Client(Some(name), [addr], if initiated then Left else Right, ClientTuning(DEFAULT_SPEED, IDENTITY),
                      false);
      Added(s, c);
      var (s1, k) := Add(s, c);
      h := k;
      forall k: Handle ensures s1.Active(k) <==> s.Active(k) {}
      Activated(s1, h);
  }

  lemma {:induction false} FirstPeer(slots: seq<Option<Client>>, name: string, addr: nat, from: nat)
    requires from <= |slots| && FindPeer(slots, name, addr, from).Some?
    ensures forall k :: from <= k < FindPeer(slots, name, addr, from).value && slots[k].Some? ==>
              !IsPeer(slots[k].value, name, addr)
    decreases |slots| - from
  {
    if !(slots[from].Some? && IsPeer(slots[from].value, name, addr)) { FirstPeer(slots, name, addr, from + 1); }
  }

  /* ---- start-up and reload ---- */

  predicate MarkedAt(marked: seq<Option<Client>>, k: nat, pos: Position) {
    k < |marked| && marked[k].Some? && marked[k].value.active && marked[k].value.pos == pos
  }

  /** The k-th client is marked active, and no later one among the first n is at its edge. */
  ghost predicate LastMarked(marked: seq<Option<Client>>, k: nat, n: nat) {
    k < n <= |marked| && marked[k].Some? && marked[k].value.active
    && forall j :: k < j < n ==> !MarkedAt(marked, j, marked[k].value.pos)
  }

  lemma {:induction false} MarkedActivated(s: Service, marked: seq<Option<Client>>, n: nat)
    requires Sound(s) && n <= |marked| == |s.slots| && forall k: Handle :: !s.Active(k)
    requires forall k :: 0 <= k < |marked| ==>
               (marked[k].Some? <==> s.Has(k)) && (s.Has(k) ==> s.slots[k].value == Marked(marked[k].value, false))
    ensures var r := ActivateMarked(s, marked, n);
            Sound(r) && OnlyClients(s, r) && SameBut(s, r, (k: Handle) => LastMarked(marked, k, n))
  {
    hide Sound, R.Activate;
    if n > 0 {
      MarkedActivated(s, marked, n - 1);
      var r := ActivateMarked(s, marked, n - 1);
      if marked[n - 1].Some? && marked[n - 1].value.active {
        SoundEdges(r);
        ActivateSound(r, n - 1);
        Activated(r, n - 1);
        forall k: Handle | s.Has(k)
          ensures LastMarked(marked, k, n) <==>
                    k == n - 1 || (LastMarked(marked, k, n - 1) && !At(r, k, r.slots[n - 1].value.pos))
        {
          OneMoreMarked(marked, k, n);
        }
      } else {
        forall k: Handle | s.Has(k) ensures LastMarked(marked, k, n) <==> LastMarked(marked, k, n - 1) {
          OneMoreMarked(marked, k, n);
        }
      }
    }
  }

  lemma OneMoreMarked(marked: seq<Option<Client>>, k: nat, n: nat)
    requires 0 < n <= |marked| && k < |marked|
    ensures LastMarked(marked, k, n) <==>
              if k == n - 1 then marked[k].Some? && marked[k].value.active
              else LastMarked(marked, k, n - 1) && !MarkedAt(marked, n - 1, marked[k].value.pos)
  {
    if LastMarked(marked, k, n) && k < n - 1 {
      forall j | k < j < n - 1 ensures !MarkedAt(marked, j, marked[k].value.pos) {}
    }
  }

  lemma SoundEdges(s: Service)
    requires Sound(s)
    ensures OnePerEdge(s)
  {
  }

  /** After start-up a client is active if and only if it was marked active and no later one
      marked active has its edge; nothing else about the clients changed. */
  lemma StartedUp(s: Service)
    requires IsNew(s)
    ensures var r := R.After(s, []);
            OnlyClients(s, r) && SameBut(s, r, (k: Handle) => LastMarked(s.slots, k, |s.slots|))
  {
    var s0 := s.(slots := AllInactive(s.slots));
    assert forall k: Handle :: !s0.Active(k);
    assert Sound(s0);
    hide Sound;
    MarkedActivated(s0, s.slots, |s.slots|);
  }

  function Wrapped(cs: seq<Client>): seq<Option<Client>> { seq(|cs|, i requires 0 <= i < |cs| => Some(cs[i])) }

  lemma {:induction false} NoneLeft(s: Service, n: nat)
    requires n <= |s.slots|
    ensures var r := RemoveUpTo(s, n);
            && OnlyClients(s, r) && |r.slots| == |s.slots|
            && forall k :: 0 <= k < |s.slots| ==> r.slots[k] == if k < n then None else s.slots[k]
  {
    hide Remove;
    if n > 0 {
      NoneLeft(s, n - 1);
      Removed(RemoveUpTo(s, n - 1), n - 1);
    }
  }

  lemma {:induction false} FirstVacant(slots: seq<Option<Client>>, from: nat)
    requires from <= |slots|
    ensures forall k :: from <= k < Vacant(slots, from) ==> slots[k].Some?
    decreases |slots| - from
  {
    if from < |slots| && slots[from].Some? { FirstVacant(slots, from + 1); }
  }

  /** Clients entered into an empty registry: the i-th has handle i. */
  ghost predicate Entered(r: Service, cs: seq<Client>, n: nat) {
    && |r.slots| == (if |cs| > n then |cs| else n)
    && (forall k: Handle :: r.Has(k) <==> k < |cs|)
    && forall k: Handle :: k < |cs| ==> r.slots[k] == Some(Marked(cs[k], LastMarked(Wrapped(cs), k, |cs|)))
  }

  lemma {:induction false} AllEntered(s: Service, cs: seq<Client>)
    requires Sound(s) && |s.slots| + |cs| <= ENTER_HANDLE_BEGIN && forall k: Handle :: !s.Has(k)
    ensures Sound(AddAll(s, cs)) && OnlyClients(s, AddAll(s, cs)) && Entered(AddAll(s, cs), cs, |s.slots|)
  {
    hide Sound, R.Activate, Add, LastMarked;
    AddAllSound(s, cs);
    if cs != [] {
      AllEntered(s, cs[..|cs| - 1]);
      OneEntered(AddAll(s, cs[..|cs| - 1]), cs, |s.slots|);
    }
  }

  lemma OneEntered(s: Service, cs: seq<Client>, n: nat)
    requires cs != [] && Sound(s) && |s.slots| < ENTER_HANDLE_BEGIN && Entered(s, cs[..|cs| - 1], n)
    ensures var r := AddFromConfig(s, cs[|cs| - 1]); OnlyClients(s, r) && Entered(r, cs, n)
  {
    hide Sound, R.Activate, Add, LastMarked;
    var last := |cs| - 1;
    var c := cs[last];
    AddSound(s, c);
    Added(s, c);
    NextHandle(s, c, last);
    var s1 := Add(s, c).0;
    if c.active {
      SoundEdges(s1);
      Activated(s1, last);
    }
    LastOfMore(cs);
    forall k: Handle | k < last ensures s1.slots[k] == s.slots[k] && s.Has(k) { assert s1.Has(k); }
  }

  lemma LastOfMore(cs: seq<Client>)
    requires cs != []
    ensures var n := |cs| - 1;
            && (forall k: nat :: k < n ==>
                  (LastMarked(Wrapped(cs), k, |cs|) <==>
                     LastMarked(Wrapped(cs[..n]), k, n) && !(cs[n].active && cs[k].pos == cs[n].pos)))
            && (LastMarked(Wrapped(cs), n, |cs|) <==> cs[n].active)
  {
    var n := |cs| - 1;
    var more, few := Wrapped(cs), Wrapped(cs[..n]);
    assert forall j :: 0 <= j < n ==> few[j] == more[j];
    forall k: nat | k < n
      ensures LastMarked(more, k, |cs|) <==> LastMarked(few, k, n) && !(cs[n].active && cs[k].pos == cs[n].pos)
    {
      if LastMarked(more, k, |cs|) {
        assert !MarkedAt(more, n, cs[k].pos);
        forall j | k < j < n ensures !MarkedAt(few, j, cs[k].pos) { assert !MarkedAt(more, j, cs[k].pos); }
      }
      if LastMarked(few, k, n) && !(cs[n].active && cs[k].pos == cs[n].pos) {
        forall j | k < j < |cs| ensures !MarkedAt(more, j, cs[k].pos) {
          if j < n { assert !MarkedAt(few, j, cs[k].pos); }
        }
      }
    }
  }

  lemma NextHandle(s: Service, c: Client, n: nat)
    requires forall k: Handle :: s.Has(k) <==> k < n
    ensures Add(s, c).1 == n && |Add(s, c).0.slots| == if n < |s.slots| then |s.slots| else |s.slots| + 1
  {
    FirstVacant(s.slots, 0);
    assert forall k: Handle :: k < Vacant(s.slots) ==> s.Has(k);
    assert !s.Has(Vacant(s.slots)) && !s.Has(n);
    if n > 0 { assert s.Has(n - 1); }
  }

  /** After a reload there are the configured clients and no others, and one is active if and
      only if it was marked active and no later one marked active has its edge. */
  lemma Reloaded(s: Service, cs: seq<Client>)
    requires Sound(s) && |s.slots| + |cs| <= ENTER_HANDLE_BEGIN
    ensures var r := Do(s, OpReload(cs)); OnlyClients(s, r) && Entered(r, cs, |s.slots|)
  {
    hide Sound;
    RemoveUpToSound(s, |s.slots|);
    NoneLeft(s, |s.slots|);
    AllEntered(RemoveUpTo(s, |s.slots|), cs);
  }

  /* ---- incoming connections ---- */

  /** What is known of the connection from `addr`. */
  ghost predicate Known(s: Service, addr: nat, pos: Position, fingerprint: string) {
    exists h :: h in s.incoming && s.incoming[h] == Incoming(addr, pos, fingerprint)
  }

  /** A peer that enters is known with its edge and fingerprint, and all other connections as before;
      it keeps its handle if and only if nothing about it changed. */
  lemma PeerEntered(s: Service, addr: nat, edge: Position, fingerprint: string)
    requires Sound(s)
    ensures var r := Do(s, OpEntered(addr, edge, fingerprint));
            && r.slots == s.slots && r.conns == s.conns + {addr}
            && Known(r, addr, edge, fingerprint)
            && (forall a, p, f :: Known(r, a, p, f) <==>
                                    if a == addr then p == edge && f == fingerprint else Known(s, a, p, f))
            && (r.incoming == s.incoming <==> Known(s, addr, edge, fingerprint))
  {
    hide OnePerEdge, Mirrored;
    var r := Do(s, OpEntered(addr, edge, fingerprint));
    KnownIsFound(s, addr);
    if addr !in s.conns {
      assert forall h :: h in s.incoming ==> !IsFrom(s, h, addr);
      EntryAdded(s, addr, edge, fingerprint);
    } else {
      var h :| IsFrom(s, h, addr);
      assert r == UpdateIncoming(s, h, edge, fingerprint);
      if !(s.incoming[h].fingerprint == fingerprint && s.incoming[h].pos == edge) {
        EntryRemoved(s, h);
        EntryAdded(RemoveIncoming(s, h), addr, edge, fingerprint);
      }
    }
  }

  lemma EntryAdded(s: Service, addr: nat, pos: Position, fingerprint: string)
    requires forall h :: h in s.incoming ==> h < ENTER_HANDLE_BEGIN + s.nextTrigger && s.incoming[h].addr != addr
    ensures var r := AddIncoming(s, addr, pos, fingerprint);
            && r.slots == s.slots && r.conns == s.conns + {addr} && r.incoming != s.incoming
            && forall a, p, f :: Known(r, a, p, f) <==>
                                   if a == addr then p == pos && f == fingerprint else Known(s, a, p, f)
  {
    var h, r := ENTER_HANDLE_BEGIN + s.nextTrigger, AddIncoming(s, addr, pos, fingerprint);
    assert h in r.incoming && h !in s.incoming;
    forall a, p, f | Known(s, a, p, f) ensures Known(r, a, p, f) {
      var k :| k in s.incoming && s.incoming[k] == Incoming(a, p, f);
      assert k in r.incoming && r.incoming[k] == s.incoming[k];
    }
  }

  lemma EntryRemoved(s: Service, h: Handle)
    requires h in s.incoming
    requires forall k :: k in s.incoming && k != h ==> s.incoming[k].addr != s.incoming[h].addr
    ensures var r, addr := RemoveIncoming(s, h), s.incoming[h].addr;
            && r.slots == s.slots && r.conns == s.conns - {addr} && r.nextTrigger == s.nextTrigger
            && r.incoming == s.incoming - {h}
            && forall a, p, f :: Known(r, a, p, f) <==> a != addr && Known(s, a, p, f)
  {
    var r := RemoveIncoming(s, h);
    forall a, p, f | Known(s, a, p, f) && a != s.incoming[h].addr ensures Known(r, a, p, f) {
      var k :| k in s.incoming && s.incoming[k] == Incoming(a, p, f);
      assert k in r.incoming && r.incoming[k] == s.incoming[k];
    }
  }

  /** A connection that closes is forgotten, all others stay. */
  lemma PeerLeft(s: Service, addr: nat)
    requires Sound(s)
    ensures var r := Do(s, OpDisconnected(addr));
            && r.slots == s.slots && r.conns == s.conns - {addr}
            && forall a, p, f :: Known(r, a, p, f) <==> a != addr && Known(s, a, p, f)
  {
    hide OnePerEdge, Mirrored;
    KnownIsFound(s, addr);
    var r := Do(s, OpDisconnected(addr));
    if h :| IsFrom(s, h, addr) {
      assert r == RemoveIncoming(s, h);
      EntryRemoved(s, h);
    } else {
      forall k | k in s.incoming ensures s.incoming[k].addr != addr { assert !IsFrom(s, k, addr); }
    }
  }
}
