/** The registry of clients and incoming connections, and the requests by which
    the service mirrors it into the capture. */
module Registry {
  import opened Basics
  import opened Events
  import opened Tuning
  import opened Capturing
  import opened Forwarding

  /** Handles of incoming connections start here, those of clients stay below. */
  const ENTER_HANDLE_BEGIN: nat := 0x8000_0000_0000_0000

  datatype Client = Client(hostname: Option<string>, fixIps: seq<nat>, pos: Position, tuning: ClientTuning,
                           active: bool)

  datatype Incoming = Incoming(addr: nat, pos: Position, fingerprint: string)

  /** What the requests sent so far make of a capture that obeys them: which
      captures there are, and which tuning applies. */
  datatype Mirror = Mirror(captures: map<Handle, (Position, CaptureType)>, tuning: map<Handle, ClientTuning>)

  /** `slots` are the clients by handle. `mirror` is history: the requests replayed,
      or nothing if one of them created what was there or destroyed what was not. */
  datatype Service = Service(slots: seq<Option<Client>>, incoming: map<Handle, Incoming>, conns: set<nat>,
                             nextTrigger: nat,
                             requests: seq<Request>, mirror: Option<Mirror>)
  {
    predicate Has(h: Handle) { h < |slots| && slots[h].Some? }

    predicate Active(h: Handle) { Has(h) && slots[h].value.active }

    function With(h: Handle, c: Client): Service
      requires h < |slots|
    {
      this.(slots := slots[h := Some(c)])
    }

    function Ask(r: Request): Service { this.(requests := requests + [r], mirror := Obey(mirror, r)) }
  }

  /** One request carried out. */
  function Obey(m: Option<Mirror>, r: Request): Option<Mirror> {
    if m.None? then None
    else
      match r
      case DoCreate(id, pos, kind) =>
        if id in m.value.captures then None else Some(m.value.(captures := m.value.captures[id := (pos, kind)]))
      case DoDestroy(id) =>
        if id !in m.value.captures then None
        else Some(Mirror(m.value.captures - {id}, m.value.tuning - {id}))
      case DoSetTuning(id, tuning) => Some(m.value.(tuning := m.value.tuning[id := tuning]))
      case _ => m
  }

  function Replay(rs: seq<Request>): Option<Mirror> {
    if rs == [] then Some(Mirror(map[], map[])) else Obey(Replay(rs[..|rs| - 1]), rs[|rs| - 1])
  }

  /** `client_at`: the first active client at an edge */
  function ClientAt(slots: seq<Option<Client>>, pos: Position, from: nat := 0): (r: Option<Handle>)
    requires from <= |slots|
    ensures r.Some? ==>
              from <= r.value < |slots| && slots[r.value].Some? && slots[r.value].value.active
                  && slots[r.value].value.pos == pos
    ensures r.None? ==>
              forall i :: from <= i < |slots| && slots[i].Some? && slots[i].value.active ==> slots[i].value.pos != pos
    decreases |slots| - from
  {
    if from == |slots| then None
    else if slots[from].Some? && slots[from].value.active && slots[from].value.pos == pos then Some(from)
    else ClientAt(slots, pos, from + 1)
  }

  /* ---- operations ---- */

  /** `deactivate_client` */
  function Deactivate(s: Service, h: Handle): Service {
    if s.Active(h) then s.With(h, s.slots[h].value.(active := false)).Ask(DoDestroy(h)) else s
  }

  /** `activate_client` */
  function Activate(s: Service, h: Handle): Service {
    if !s.Has(h) then s
    else
      var pos := s.slots[h].value.pos;
      var other := ClientAt(s.slots, pos);
      var s1 := if other.Some? && other.value != h then Deactivate(s, other.value) else s;
      if s1.slots[h].value.active then s1
      else
        var c := s1.slots[h].value.(active := true);
        s1.With(h, c).Ask(DoSetTuning(h, c.tuning)).Ask(DoCreate(h, pos, Default))
  }

  /** `update_pos` */
  function UpdatePos(s: Service, h: Handle, pos: Position): Service {
    if !s.Has(h) || s.slots[h].value.pos == pos then s
    else
      var s1 := s.With(h, s.slots[h].value.(pos := pos));
      if s.slots[h].value.active then Activate(Deactivate(s1, h), h) else s1
  }

  /** `update_speed` and `update_modifiers` */
  function UpdateTuning(s: Service, h: Handle, tuning: ClientTuning): Service {
    if !s.Has(h) then s else s.With(h, s.slots[h].value.(tuning := tuning)).Ask(DoSetTuning(h, tuning))
  }

  /** `remove_client` */
  function Remove(s: Service, h: Handle): Service {
    if !s.Has(h) then s
    else
      var s1 := s.(slots := s.slots[h := None]);
      if s.slots[h].value.active then s1.Ask(DoDestroy(h)) else s1
  }

  /** The slot a new client gets: a vacant one, or one more. */
  function Vacant(slots: seq<Option<Client>>, from: nat := 0): (r: nat)
    requires from <= |slots|
    ensures r <= |slots| && (r < |slots| ==> slots[r].None?)
    decreases |slots| - from
  {
    if from == |slots| || slots[from].None? then from else Vacant(slots, from + 1)
  }

  /** A client is entered, not active. */
  function Add(s: Service, c: Client): (Service, Handle) {
    var h := Vacant(s.slots);
    var c1 := c.(active := false);
    (s.(slots := if h < |s.slots| then s.slots[h := Some(c1)] else s.slots + [Some(c1)]), h)
  }

  /** A client of the configuration is entered, and activated if it was active. */
  function AddFromConfig(s: Service, c: Client): Service {
    var (s1, h) := Add(s, c);
    if c.active then Activate(s1, h) else s1
  }

  function AddAll(s: Service, cs: seq<Client>): Service {
    if cs == [] then s else AddFromConfig(AddAll(s, cs[..|cs| - 1]), cs[|cs| - 1])
  }

  function RemoveUpTo(s: Service, n: nat): Service {
    if n == 0 then s else Remove(RemoveUpTo(s, n - 1), n - 1)
  }

  /** `handle_config_change` */
  function ConfigChange(s: Service, cs: seq<Client>): Service { AddAll(RemoveUpTo(s, |s.slots|), cs) }

  /** The clients as the configuration marks them, before any of them was activated. */
  function AllInactive(slots: seq<Option<Client>>): seq<Option<Client>> {
    seq(|slots|, i requires 0 <= i < |slots| => if slots[i].Some? then Some(slots[i].value.(active := false)) else None)
  }

  function ActivateMarked(s: Service, marked: seq<Option<Client>>, n: nat): Service
    requires n <= |marked|
  {
    if n == 0 then s
    else
      var s1 := ActivateMarked(s, marked, n - 1);
      if marked[n - 1].Some? && marked[n - 1].value.active then Activate(s1, n - 1) else s1
  }

  /** The start of `run`: clients that are marked active are deactivated without a
      request and then activated one by one. */
  function Startup(s: Service): Service {
    ActivateMarked(s.(slots := AllInactive(s.slots)), s.slots, |s.slots|)
  }

  predicate IsPeer(c: Client, name: string, addr: nat) { addr in c.fixIps || c.hostname == Some(name) }

  function FindPeer(slots: seq<Option<Client>>, name: string, addr: nat, from: nat := 0): (r: Option<Handle>)
    requires from <= |slots|
    ensures r.Some? ==> r.value < |slots| && slots[r.value].Some? && IsPeer(slots[r.value].value, name, addr)
    ensures r.None? ==> forall i :: from <= i < |slots| && slots[i].Some? ==> !IsPeer(slots[i].value, name, addr)
    decreases |slots| - from
  {
    if from == |slots| then None
    else if slots[from].Some? && IsPeer(slots[from].value, name, addr) then Some(from)
    else FindPeer(slots, name, addr, from + 1)
  }

  /** `ensure_paired_client` */
  function EnsurePaired(s: Service, name: string, addr: nat, initiated: bool): Service {
    match FindPeer(s.slots, name, addr)
    case Some(h) =>
      var c := s.slots[h].value;
      Activate(s.With(h, if addr in c.fixIps then c else c.(fixIps := c.fixIps + [addr])), h)
    case None =>
      var pos := if initiated then Left else Right;
      var (s1, h) := Add(s, Client(Some(name), [addr], pos, ClientTuning(DEFAULT_SPEED, IDENTITY), false));
      Activate(s1, h)
  }

  /* ---- incoming connections ---- */

  /** The capture of the incoming connection from `addr`. */
  ghost predicate IsFrom(s: Service, h: Handle, addr: nat) { h in s.incoming && s.incoming[h].addr == addr }

  /** `add_incoming` */
  function AddIncoming(s: Service, addr: nat, pos: Position, fingerprint: string): Service {
    var h := ENTER_HANDLE_BEGIN + s.nextTrigger;
    s.(nextTrigger := s.nextTrigger + 1, conns := s.conns + {addr},
       incoming := s.incoming[h := Incoming(addr, pos, fingerprint)])
     .Ask(DoCreate(h, pos, EnterOnly))
  }

  /** `remove_incoming`, for the entry `h` that was found */
  function RemoveIncoming(s: Service, h: Handle): Service
    requires h in s.incoming
  {
    s.(conns := s.conns - {s.incoming[h].addr}, incoming := s.incoming - {h}).Ask(DoDestroy(h))
  }

  /** `update_incoming`, for the entry `h` that was found */
  function UpdateIncoming(s: Service, h: Handle, pos: Position, fingerprint: string): Service
    requires h in s.incoming
  {
    var i := s.incoming[h];
    if i.fingerprint == fingerprint && i.pos == pos then s
    else AddIncoming(RemoveIncoming(s, h), i.addr, pos, fingerprint)
  }

  /* ---- the invariant ---- */

  /** At most one active client at each edge. */
  ghost predicate OnePerEdge(s: Service) {
    forall h: Handle, k: Handle :: s.Active(h) && s.Active(k) && h != k ==> s.slots[h].value.pos != s.slots[k].value.pos
  }

  /** The capture, obeying the requests, has exactly the active clients at their
      current edges, with their current tuning, and one enter-only capture for each
      incoming connection. */
  ghost predicate Mirrored(s: Service) {
    && s.mirror.Some?
    && (forall h: Handle :: h in s.mirror.value.captures <==> s.Active(h) || h in s.incoming)
    && (forall h: Handle :: s.Active(h) ==>
          && s.mirror.value.captures[h] == (s.slots[h].value.pos, Default)
          && h in s.mirror.value.tuning && s.mirror.value.tuning[h] == s.slots[h].value.tuning)
    && (forall h :: h in s.incoming ==> s.mirror.value.captures[h] == (s.incoming[h].pos, EnterOnly))
  }

  /** Incoming connections are known by address, one entry each, under handles of their own. */
  ghost predicate IncomingOk(s: Service) {
    && (forall a :: a in s.conns <==> exists h :: IsFrom(s, h, a))
    && (forall h, k :: h in s.incoming && k in s.incoming && h != k ==> s.incoming[h].addr != s.incoming[k].addr)
    && (forall h :: h in s.incoming ==> ENTER_HANDLE_BEGIN <= h < ENTER_HANDLE_BEGIN + s.nextTrigger)
  }

  /** The registry is mirrored; clients never get handles of incoming connections. */
  ghost predicate Sound(s: Service) {
    && |s.slots| <= ENTER_HANDLE_BEGIN
    && OnePerEdge(s) && Mirrored(s) && IncomingOk(s)
    && s.mirror == Replay(s.requests)
  }

  lemma Asked(s: Service, r: Request)
    requires s.mirror == Replay(s.requests)
    ensures s.Ask(r).mirror == Replay(s.Ask(r).requests)
  {
    assert (s.requests + [r])[..|s.requests|] == s.requests;
  }

  lemma InactiveChanged(s: Service, h: Handle, c: Client)
    requires Sound(s) && h < |s.slots| && !s.Active(h) && !c.active
    ensures Sound(s.With(h, c))
  {
    var r := s.With(h, c);
    assert forall k: Handle :: r.Active(k) <==> s.Active(k);
    assert forall k, a :: IsFrom(r, k, a) <==> IsFrom(s, k, a);
  }

  lemma DeactivateSound(s: Service, h: Handle)
    requires Sound(s)
    ensures Sound(Deactivate(s, h)) && !Deactivate(s, h).Active(h)
    ensures forall k: Handle :: k != h ==>
              (Deactivate(s, h).Active(k) <==> s.Active(k)) && (s.Has(k) ==> Deactivate(s, h).slots[k] == s.slots[k])
    ensures |Deactivate(s, h).slots| == |s.slots| && (Deactivate(s, h).Has(h) <==> s.Has(h))
    ensures s.Has(h) ==> Deactivate(s, h).slots[h].value == s.slots[h].value.(active := false)
  {
    var r := Deactivate(s, h);
    if s.Active(h) {
      Asked(s.With(h, s.slots[h].value.(active := false)), DoDestroy(h));
      assert forall k: Handle :: r.Active(k) <==> s.Active(k) && k != h;
      assert forall k, a :: IsFrom(r, k, a) <==> IsFrom(s, k, a);
      assert h !in s.incoming;
    }
  }

  lemma NewlyActive(s: Service, h: Handle)
    requires Sound(s) && s.Has(h) && !s.Active(h)
    requires forall k: Handle :: s.Active(k) ==> s.slots[k].value.pos != s.slots[h].value.pos
    ensures var c := s.slots[h].value.(active := true);
            Sound(s.With(h, c).Ask(DoSetTuning(h, c.tuning)).Ask(DoCreate(h, c.pos, Default)))
  {
    var c := s.slots[h].value.(active := true);
    var s1 := s.With(h, c);
    var s2 := s1.Ask(DoSetTuning(h, c.tuning));
    var r := s2.Ask(DoCreate(h, c.pos, Default));
    Asked(s1, DoSetTuning(h, c.tuning));
    Asked(s2, DoCreate(h, c.pos, Default));
    assert forall k: Handle :: r.Active(k) <==> s.Active(k) || k == h;
    assert forall k, a :: IsFrom(r, k, a) <==> IsFrom(s, k, a);
    assert h !in s.incoming;
  }

  lemma ActivateSound(s: Service, h: Handle)
    requires Sound(s)
    ensures Sound(Activate(s, h)) && (s.Has(h) ==> Activate(s, h).Active(h))
    ensures |Activate(s, h).slots| == |s.slots|
  {
    hide Mirrored, IncomingOk, Deactivate;
    if s.Has(h) {
      var pos := s.slots[h].value.pos;
      var other := ClientAt(s.slots, pos);
      if other.Some? && other.value != h { DeactivateSound(s, other.value); }
      var s1 := if other.Some? && other.value != h then Deactivate(s, other.value) else s;
      if !s1.slots[h].value.active {
        forall k: Handle | s1.Active(k) ensures s1.slots[k].value.pos != s1.slots[h].value.pos {
          assert s.Active(k);
          if other.Some? && other.value != h { assert s.Active(other.value); }
        }
        NewlyActive(s1, h);
      }
    }
  }

  lemma UpdatePosSound(s: Service, h: Handle, pos: Position)
    requires Sound(s)
    ensures Sound(UpdatePos(s, h, pos))
  {
    hide Sound, Activate;
    if s.Has(h) && s.slots[h].value.pos != pos {
      var c := s.slots[h].value.(pos := pos);
      if s.slots[h].value.active {
        DeactivateSound(s, h);
        InactiveChanged(Deactivate(s, h), h, c.(active := false));
        assert Deactivate(s.With(h, c), h) == Deactivate(s, h).With(h, c.(active := false)) by {
          ChangedFirst(s, h, c);
        }
        ActivateSound(Deactivate(s.With(h, c), h), h);
      } else {
        InactiveChanged(s, h, c);
      }
    }
  }

  /** Changing a client's position before deactivating it is the same as after. */
  lemma ChangedFirst(s: Service, h: Handle, c: Client)
    requires s.Active(h) && c.active
    ensures Deactivate(s.With(h, c), h) == Deactivate(s, h).With(h, c.(active := false))
  {
  }

  lemma UpdateTuningSound(s: Service, h: Handle, tuning: ClientTuning)
    requires Sound(s)
    ensures Sound(UpdateTuning(s, h, tuning))
  {
    if s.Has(h) {
      var s1 := s.With(h, s.slots[h].value.(tuning := tuning));
      var r := s1.Ask(DoSetTuning(h, tuning));
      Asked(s1, DoSetTuning(h, tuning));
      assert forall k: Handle :: r.Active(k) <==> s.Active(k);
      assert forall k, a :: IsFrom(r, k, a) <==> IsFrom(s, k, a);
    }
  }

  lemma RemoveSound(s: Service, h: Handle)
    requires Sound(s)
    ensures Sound(Remove(s, h)) && !Remove(s, h).Has(h) && |Remove(s, h).slots| == |s.slots|
    ensures forall k: Handle :: k != h && !s.Has(k) ==> !Remove(s, h).Has(k)
  {
    if s.Has(h) {
      var r := Remove(s, h);
      if s.slots[h].value.active { Asked(s.(slots := s.slots[h := None]), DoDestroy(h)); }
      assert forall k: Handle :: r.Active(k) <==> s.Active(k) && k != h;
      assert forall k, a :: IsFrom(r, k, a) <==> IsFrom(s, k, a);
      assert s.Active(h) ==> h !in s.incoming;
    }
  }

  lemma AddSound(s: Service, c: Client)
    requires Sound(s) && |s.slots| < ENTER_HANDLE_BEGIN
    ensures var (r, h) := Add(s, c);
            Sound(r) && r.Has(h) && |s.slots| <= |r.slots| <= |s.slots| + 1 && r.slots[h] == Some(c.(active := false))
  {
    var (r, h) := Add(s, c);
    if h < |s.slots| {
      InactiveChanged(s, h, c.(active := false));
    } else {
      assert forall k: Handle :: r.Active(k) <==> s.Active(k);
      assert forall k, a :: IsFrom(r, k, a) <==> IsFrom(s, k, a);
      assert forall k: Handle :: s.Active(k) ==> r.slots[k] == s.slots[k];
    }
  }

  lemma {:induction false} AddAllSound(s: Service, cs: seq<Client>)
    requires Sound(s) && |s.slots| + |cs| <= ENTER_HANDLE_BEGIN
    ensures Sound(AddAll(s, cs)) && |AddAll(s, cs).slots| <= |s.slots| + |cs|
  {
    hide Sound, Activate, Add;
    if cs != [] {
      var front, c := AddAll(s, cs[..|cs| - 1]), cs[|cs| - 1];
      AddAllSound(s, cs[..|cs| - 1]);
      AddSound(front, c);
      var (s1, h) := Add(front, c);
      ActivateSound(s1, h);
    }
  }

  lemma {:induction false} RemoveUpToSound(s: Service, n: nat)
    requires Sound(s)
    ensures Sound(RemoveUpTo(s, n)) && |RemoveUpTo(s, n).slots| == |s.slots|
    ensures forall k: Handle :: k < n ==> !RemoveUpTo(s, n).Has(k)
  {
    hide Sound, Remove;
    if n > 0 {
      RemoveUpToSound(s, n - 1);
      RemoveSound(RemoveUpTo(s, n - 1), n - 1);
    }
  }

  lemma {:induction false} ActivateMarkedSound(s: Service, marked: seq<Option<Client>>, n: nat)
    requires Sound(s) && n <= |marked|
    ensures Sound(ActivateMarked(s, marked, n))
  {
    hide Sound, Activate;
    if n > 0 {
      ActivateMarkedSound(s, marked, n - 1);
      ActivateSound(ActivateMarked(s, marked, n - 1), n - 1);
    }
  }

  /** A service that was just created from the configuration. */
  ghost predicate IsNew(s: Service) {
    s.incoming == map[] && s.conns == {} && s.requests == [] && s.mirror == Some(Mirror(map[], map[]))
        && |s.slots| <= ENTER_HANDLE_BEGIN
  }

  lemma StartupSound(s: Service)
    requires IsNew(s)
    ensures Sound(Startup(s))
  {
    var s0 := s.(slots := AllInactive(s.slots));
    assert forall k: Handle :: !s0.Active(k);
    assert Sound(s0);
    hide Sound;
    ActivateMarkedSound(s0, s.slots, |s.slots|);
  }

  lemma KnownSound(s: Service, h: Handle, r: Service)
    requires Sound(s) && s.Has(h)
    requires exists ips :: r == s.With(h, s.slots[h].value.(fixIps := ips))
    ensures Sound(r)
  {
    assert forall k: Handle :: r.Active(k) <==> s.Active(k);
    assert forall k, a :: IsFrom(r, k, a) <==> IsFrom(s, k, a);
  }

  lemma EnsurePairedSound(s: Service, name: string, addr: nat, initiated: bool)
    requires Sound(s) && |s.slots| < ENTER_HANDLE_BEGIN
    ensures Sound(EnsurePaired(s, name, addr, initiated))
    ensures exists h: Handle :: EnsurePaired(s, name, addr, initiated).Active(h)
  {
    hide Activate, Add;
    match FindPeer(s.slots, name, addr)
    case Some(h) =>
      var c := s.slots[h].value;
      var r := s.With(h, if addr in c.fixIps then c else c.(fixIps := c.fixIps + [addr]));
      KnownSound(s, h, r);
      ActivateSound(r, h);
    case None =>
      var c := Client(Some(name), [addr], if initiated then Left else Right, ClientTuning(DEFAULT_SPEED, IDENTITY),
                      false);
      AddSound(s, c);
      var (s1, h) := Add(s, c);
      ActivateSound(s1, h);
  }

  lemma AddIncomingSound(s: Service, addr: nat, pos: Position, fingerprint: string)
    requires Sound(s) && addr !in s.conns
    ensures Sound(AddIncoming(s, addr, pos, fingerprint))
    ensures IsFrom(AddIncoming(s, addr, pos, fingerprint), ENTER_HANDLE_BEGIN + s.nextTrigger, addr)
  {
    var h, r := ENTER_HANDLE_BEGIN + s.nextTrigger, AddIncoming(s, addr, pos, fingerprint);
    Asked(s.(nextTrigger := s.nextTrigger + 1, conns := s.conns + {addr},
             incoming := s.incoming[h := Incoming(addr, pos, fingerprint)]),
          DoCreate(h, pos, EnterOnly));
    assert forall k: Handle :: r.Active(k) <==> s.Active(k);
    assert h !in s.incoming && !s.Active(h);
    assert forall k, a :: IsFrom(r, k, a) <==> IsFrom(s, k, a) || (k == h && a == addr);
    assert IsFrom(r, h, addr);
    forall k | k in s.incoming ensures s.incoming[k].addr != addr { assert IsFrom(s, k, s.incoming[k].addr); }
  }

  lemma RemoveIncomingSound(s: Service, h: Handle)
    requires Sound(s) && h in s.incoming
    ensures Sound(RemoveIncoming(s, h)) && s.incoming[h].addr !in RemoveIncoming(s, h).conns
  {
    var r := RemoveIncoming(s, h);
    Asked(s.(conns := s.conns - {s.incoming[h].addr}, incoming := s.incoming - {h}), DoDestroy(h));
    assert forall k: Handle :: r.Active(k) <==> s.Active(k);
    assert !s.Active(h);
    assert forall k, a :: IsFrom(r, k, a) <==> IsFrom(s, k, a) && k != h;
    forall a ensures a in r.conns <==> exists k :: IsFrom(r, k, a) {
      if a in r.conns { var k :| IsFrom(s, k, a); assert IsFrom(r, k, a); }
    }
  }

  lemma UpdateIncomingSound(s: Service, h: Handle, pos: Position, fingerprint: string)
    requires Sound(s) && h in s.incoming
    ensures Sound(UpdateIncoming(s, h, pos, fingerprint))
  {
    hide Sound, AddIncoming, RemoveIncoming;
    RemoveIncomingSound(s, h);
    AddIncomingSound(RemoveIncoming(s, h), s.incoming[h].addr, pos, fingerprint);
  }

  /* ---- every run ---- */

  datatype Op =
    | OpActivate(h: Handle, active: bool) | OpCreate | OpDelete(h: Handle)
    | OpUpdatePos(h: Handle, pos: Position) | OpUpdateTuning(h: Handle, tuning: ClientTuning)
    | OpReload(clients: seq<Client>) | OpPaired(name: string, addr: nat, initiated: bool)
    | OpEntered(addr: nat, edge: Position, fingerprint: string) | OpDisconnected(addr: nat)

  const NEW_CLIENT := Client(None, [], Left, ClientTuning(DEFAULT_SPEED, IDENTITY), false)

  ghost function Do(s: Service, op: Op): Service {
    match op
    case OpActivate(h, active) => if active then Activate(s, h) else Deactivate(s, h)
    case OpCreate => Add(s, NEW_CLIENT).0
    case OpDelete(h) => Remove(s, h)
    case OpUpdatePos(h, pos) => UpdatePos(s, h, pos)
    case OpUpdateTuning(h, tuning) => UpdateTuning(s, h, tuning)
    case OpReload(clients) => ConfigChange(s, clients)
    case OpPaired(name, addr, initiated) => EnsurePaired(s, name, addr, initiated)
    case OpEntered(addr, edge, fingerprint) =>
      if addr !in s.conns then AddIncoming(s, addr, edge, fingerprint)
      else if h :| IsFrom(s, h, addr) then UpdateIncoming(s, h, edge, fingerprint)
      else s
    case OpDisconnected(addr) => if h :| IsFrom(s, h, addr) then RemoveIncoming(s, h) else s
  }

  /** There is room for the clients an operation may add. */
  predicate Room(s: Service, op: Op) {
    var more := match op case OpReload(clients) => |clients| case OpCreate => 1 case OpPaired(_, _, _) => 1 case _ => 0;
    |s.slots| + more <= ENTER_HANDLE_BEGIN
  }

  lemma DoSound(s: Service, op: Op)
    requires Sound(s) && Room(s, op)
    ensures Sound(Do(s, op))
  {
    hide Sound, Activate, Deactivate, Add, Remove, UpdatePos, UpdateTuning, EnsurePaired, AddIncoming, UpdateIncoming;
    hide RemoveIncoming;
    match op
    case OpActivate(h, active) =>
      ActivateSound(s, h);
      DeactivateSound(s, h);
    case OpCreate => AddSound(s, NEW_CLIENT);
    case OpDelete(h) => RemoveSound(s, h);
    case OpUpdatePos(h, pos) => UpdatePosSound(s, h, pos);
    case OpUpdateTuning(h, tuning) => UpdateTuningSound(s, h, tuning);
    case OpReload(clients) =>
      RemoveUpToSound(s, |s.slots|);
      AddAllSound(RemoveUpTo(s, |s.slots|), clients);
    case OpPaired(name, addr, initiated) => EnsurePairedSound(s, name, addr, initiated);
    case OpEntered(addr, edge, fingerprint) =>
      if addr !in s.conns {
        AddIncomingSound(s, addr, edge, fingerprint);
      } else {
        KnownIsFound(s, addr);
        forall h | IsFrom(s, h, addr)
          ensures Sound(UpdateIncoming(s, h, edge, fingerprint))
        {
          UpdateIncomingSound(s, h, edge, fingerprint);
        }
      }
    case OpDisconnected(addr) =>
      forall h | IsFrom(s, h, addr) ensures Sound(RemoveIncoming(s, h)) { RemoveIncomingSound(s, h); }
  }

  /** The addresses kept aside are exactly those with an entry, and none has two. */
  lemma KnownIsFound(s: Service, addr: nat)
    requires Sound(s)
    ensures addr in s.conns <==> exists h :: IsFrom(s, h, addr)
    ensures forall h, k :: IsFrom(s, h, addr) && IsFrom(s, k, addr) ==> h == k
  {
  }

  ghost function After(s: Service, ops: seq<Op>): Service {
    if ops == [] then Startup(s) else Do(After(s, ops[..|ops| - 1]), ops[|ops| - 1])
  }

  ghost predicate RoomForAll(s: Service, ops: seq<Op>) {
    ops == [] || (RoomForAll(s, ops[..|ops| - 1]) && Room(After(s, ops[..|ops| - 1]), ops[|ops| - 1]))
  }

  /** After start-up and after every request, configuration reload, pairing and
      incoming connection: no two active clients share an edge, and replaying the
      requests sent to the capture gives, without ever creating what is there or
      destroying what is not, exactly the active clients at their current edges
      plus one enter-only capture per known incoming address. */
  lemma {:induction false} RegistryIsMirrored(s: Service, ops: seq<Op>)
    requires IsNew(s) && RoomForAll(s, ops)
    ensures Sound(After(s, ops))
  {
    hide Sound, Do;
    if ops == [] {
      StartupSound(s);
    } else {
      RegistryIsMirrored(s, ops[..|ops| - 1]);
      DoSound(After(s, ops[..|ops| - 1]), ops[|ops| - 1]);
    }
  }

  /** `update_incoming`, called for a known address after any operations, always
      finds its entry, and there is only one; and an address that is not known has
      none, so `add_incoming` never makes a second one. */
  lemma IncomingAlwaysFound(s: Service, ops: seq<Op>, addr: nat)
    requires IsNew(s) && RoomForAll(s, ops)
    ensures var r := After(s, ops);
            && (addr in r.conns <==> exists h :: IsFrom(r, h, addr))
            && forall h, k :: IsFrom(r, h, addr) && IsFrom(r, k, addr) ==> h == k
  {
    hide Sound, IsFrom;
    RegistryIsMirrored(s, ops);
    KnownIsFound(After(s, ops), addr);
  }
}
