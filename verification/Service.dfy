/** The service and its client manager as the objects they are; their methods
    compute the functions of Registry. */
module ServiceObject {
  import opened Basics
  import opened Events
  import opened Tuning
  import opened Capturing
  import opened Forwarding
  import opened Registry
  import R = Registry

  class Service {
    /** the clients, by handle */
    var slots: seq<Option<Client>>
    var incoming: map<Handle, Incoming>
    /** the addresses of known incoming connections */
    var conns: set<nat>
    var nextTrigger: nat
    /** what the capture was asked */
    var requests: seq<Request>
    ghost var mirror: Option<Mirror>

    ghost function View(): R.Service
      reads this
    {
      R.Service(slots, incoming, conns, nextTrigger, requests, mirror)
    }

    constructor (slots: seq<Option<Client>>)
      ensures this.slots == slots && (|slots| <= ENTER_HANDLE_BEGIN ==> IsNew(View()))
    {
      this.slots, incoming, conns, nextTrigger, requests := slots, map[], {}, 0, [];
      mirror := Some(Mirror(map[], map[]));
    }

    method Ask(r: Request)
      modifies this`requests, this`mirror
      ensures View() == old(View()).Ask(r)
    {
      requests := requests + [r];
      mirror := Obey(mirror, r);
    }

    method FindActiveAt(pos: Position) returns (found: Option<Handle>)
      ensures found == ClientAt(slots, pos)
    {
      var i := 0;
      while i < |slots|
        invariant 0 <= i <= |slots| && ClientAt(slots, pos) == ClientAt(slots, pos, i)
      {
        if slots[i].Some? && slots[i].value.active && slots[i].value.pos == pos {
          return Some(i);
        }
        i := i + 1;
      }
      return None;
    }

    method Deactivate(h: Handle)
      modifies this
      ensures View() == R.Deactivate(old(View()), h)
    {
      if h < |slots| && slots[h].Some? && slots[h].value.active {
        slots := slots[h := Some(slots[h].value.(active := false))];
        Ask(DoDestroy(h));
      }
    }

    method Activate(h: Handle)
      modifies this
      ensures View() == R.Activate(old(View()), h)
    {
      hide R.Deactivate;
      if h >= |slots| || slots[h].None? {
        return;
      }
      var pos := slots[h].value.pos;
      var other := FindActiveAt(pos);
      if other.Some? && other.value != h {
        OnlyOther(View(), other.value, h);
        Deactivate(other.value);
      }
      if !slots[h].value.active {
        slots := slots[h := Some(slots[h].value.(active := true))];
        Ask(DoSetTuning(h, slots[h].value.tuning));
        Ask(DoCreate(h, pos, Default));
      }
    }

    method UpdatePos(h: Handle, pos: Position)
      modifies this
      ensures View() == R.UpdatePos(old(View()), h, pos)
    {
      hide R.Deactivate, R.Activate;
      if h < |slots| && slots[h].Some? && slots[h].value.pos != pos {
        var changed := slots[h].value.active;
        slots := slots[h := Some(slots[h].value.(pos := pos))];
        if changed {
          Deactivate(h);
          Activate(h);
        }
      }
    }

    method UpdateTuning(h: Handle, tuning: ClientTuning)
      modifies this
      ensures View() == R.UpdateTuning(old(View()), h, tuning)
    {
      if h < |slots| && slots[h].Some? {
        slots := slots[h := Some(slots[h].value.(tuning := tuning))];
        Ask(DoSetTuning(h, tuning));
      }
    }

    method Remove(h: Handle)
      modifies this
      ensures View() == R.Remove(old(View()), h)
    {
      if h < |slots| && slots[h].Some? {
        var wasActive := slots[h].value.active;
        slots := slots[h := None];
        if wasActive {
          Ask(DoDestroy(h));
        }
      }
    }

    method Add(c: Client) returns (h: Handle)
      modifies this`slots
      ensures (View(), h) == R.Add(old(View()), c)
    {
      h := 0;
      while h < |slots| && slots[h].Some?
        invariant h <= |slots| && Vacant(slots) == Vacant(slots, h)
      {
        h := h + 1;
      }
      slots := if h < |slots| then slots[h := Some(c.(active := false))] else slots + [Some(c.(active := false))];
    }

    /** All clients go, then those of the new configuration come, one by one. */
    method ConfigChange(cs: seq<Client>)
      modifies this
      ensures View() == R.ConfigChange(old(View()), cs)
    {
      hide R.Remove, R.Add, R.Activate;
      var n := |slots|;
      for i := 0 to n
        invariant View() == RemoveUpTo(old(View()), i)
      {
        Remove(i);
      }
      assert cs[..0] == [];
      for i := 0 to |cs|
        invariant View() == AddAll(RemoveUpTo(old(View()), n), cs[..i])
      {
        assert cs[..i + 1][..i] == cs[..i];
        var h := Add(cs[i]);
        if cs[i].active {
          Activate(h);
        }
      }
      assert cs[..|cs|] == cs;
    }

    /** Clients marked active are deactivated and then activated properly. */
    method Startup()
      modifies this
      ensures View() == R.Startup(old(View()))
    {
      hide R.Activate, Marked;
      ghost var start := slots;
      var active := DeactivateMarked();
      ghost var s0 := View();
      assert active[..0] == [];
      for j := 0 to |active|
        invariant View() == ActivateEach(s0, active[..j])
      {
        assert active[..j + 1][..j] == active[..j];
        Activate(active[j]);
      }
      assert active[..|active|] == active;
      EachMarked(s0, start, |start|);
    }

    /** The handles marked active; none is active afterwards. */
    method DeactivateMarked() returns (active: seq<Handle>)
      modifies this`slots
      ensures active == Marked(old(slots), |old(slots)|) && slots == AllInactive(old(slots))
    {
      active := [];
      ghost var start := slots;
      var n := |slots|;
      for i := 0 to n
        invariant |slots| == |start| == n && active == Marked(start, i)
        invariant forall j :: 0 <= j < |start| ==> slots[j] == if j < i then AllInactive(start)[j] else start[j]
      {
        if slots[i].Some? && slots[i].value.active {
          active := active + [i];
          slots := slots[i := Some(slots[i].value.(active := false))];
        }
      }
    }

    method EnsurePaired(name: string, addr: nat, initiated: bool)
      modifies this
      ensures View() == R.EnsurePaired(old(View()), name, addr, initiated)
    {
      hide R.Activate, R.Add;
      var i := 0;
      while i < |slots|
        invariant 0 <= i <= |slots| && View() == old(View())
        invariant FindPeer(slots, name, addr) == FindPeer(slots, name, addr, i)
      {
        if slots[i].Some? && IsPeer(slots[i].value, name, addr) {
          var c := slots[i].value;
          if addr !in c.fixIps {
            c := c.(fixIps := c.fixIps + [addr]);
          }
          slots := slots[i := Some(c)];
          Activate(i);
          return;
        }
        i := i + 1;
      }
      var pos := if initiated then Left else Right;
      var h := Add(Client(Some(name), [addr], pos, ClientTuning(DEFAULT_SPEED, IDENTITY), false));
      Activate(h);
    }

    /** The entry for an address, by looking at all of them. */
    method FindIncoming(addr: nat) returns (found: Option<Handle>)
      ensures found.Some? ==> found.value in incoming && incoming[found.value].addr == addr
      ensures found.None? ==> forall h :: h in incoming ==> incoming[h].addr != addr
    {
      var left := incoming.Keys;
      while left != {}
        invariant left <= incoming.Keys
        invariant forall h :: h in incoming && h !in left ==> incoming[h].addr != addr
        decreases |left|
      {
        var h :| h in left;
        if incoming[h].addr == addr {
          return Some(h);
        }
        left := left - {h};
      }
      return None;
    }

    method AddIncoming(addr: nat, pos: Position, fingerprint: string)
      modifies this
      ensures View() == R.AddIncoming(old(View()), addr, pos, fingerprint)
    {
      var h := ENTER_HANDLE_BEGIN + nextTrigger;
      nextTrigger := nextTrigger + 1;
      conns := conns + {addr};
      incoming := incoming[h := Incoming(addr, pos, fingerprint)];
      Ask(DoCreate(h, pos, EnterOnly));
    }

    method RemoveIncoming(addr: nat) returns (known: bool)
      modifies this
      ensures known <==> exists h :: IsFrom(old(View()), h, addr)
      ensures known ==> exists h :: IsFrom(old(View()), h, addr) && View() == R.RemoveIncoming(old(View()), h)
      ensures !known ==> View() == old(View())
    {
      var found := FindIncoming(addr);
      known := found.Some?;
      if known {
        var h := found.value;
        assert IsFrom(old(View()), h, addr);
        conns := conns - {addr};
        incoming := incoming - {h};
        Ask(DoDestroy(h));
      }
    }

    /** A peer entered: its connection is registered, or its entry renewed. */
    method Entered(addr: nat, pos: Position, fingerprint: string)
      requires Sound(View())
      modifies this
      ensures View() == Do(old(View()), OpEntered(addr, pos, fingerprint)) && Sound(View())
    {
      ghost var s := View();
      assert Room(s, OpEntered(addr, pos, fingerprint));
      hide Sound;
      DoSound(s, OpEntered(addr, pos, fingerprint));
      if addr !in conns {
        AddIncoming(addr, pos, fingerprint);
        return;
      }
      KnownIsFound(s, addr);
      assert exists k :: k in incoming && incoming[k].addr == addr by {
        var k :| IsFrom(s, k, addr);
        assert k in incoming;
      }
      var found := FindIncoming(addr);
      var h := found.value;
      assert IsFrom(s, h, addr) && Do(s, OpEntered(addr, pos, fingerprint)) == R.UpdateIncoming(s, h, pos, fingerprint);
      if incoming[h].fingerprint != fingerprint || incoming[h].pos != pos {
        conns := conns - {addr};
        incoming := incoming - {h};
        Ask(DoDestroy(h));
        AddIncoming(addr, pos, fingerprint);
      }
    }
  }

  lemma OnlyOther(s: R.Service, other: Handle, h: Handle)
    requires s.Has(h) && other != h
    ensures R.Deactivate(s, other).Has(h) && R.Deactivate(s, other).slots[h] == s.slots[h]
    ensures |R.Deactivate(s, other).slots| == |s.slots|
  {
  }

  /** The handles marked active among the first n. */
  function Marked(slots: seq<Option<Client>>, n: nat): seq<Handle>
    requires n <= |slots|
  {
    if n == 0 then []
    else if slots[n - 1].Some? && slots[n - 1].value.active then Marked(slots, n - 1) + [n - 1]
    else Marked(slots, n - 1)
  }

  ghost function ActivateEach(s: R.Service, hs: seq<Handle>): R.Service {
    if hs == [] then s else R.Activate(ActivateEach(s, hs[..|hs| - 1]), hs[|hs| - 1])
  }

  lemma {:induction false} EachMarked(s: R.Service, slots: seq<Option<Client>>, n: nat)
    requires n <= |slots|
    ensures ActivateEach(s, Marked(slots, n)) == ActivateMarked(s, slots, n)
  {
    hide R.Activate;
    if n > 0 {
      EachMarked(s, slots, n - 1);
      if slots[n - 1].Some? && slots[n - 1].value.active {
        assert Marked(slots, n)[..|Marked(slots, n)| - 1] == Marked(slots, n - 1);
      }
    }
  }
}
