/** What the receiving machine's emulation makes of the messages a capture task
    sent: the keys down at its backend. */
module KeyArrival {
  import opened Basics
  import opened Events
  import opened Forwarding
  import opened Emulating
  import opened KeyRelease
  import opened Capturing

  /** The messages that can reach the receiver: those to `id`, and of these, if
      `leaves` is false, only the input events. */
  method Receive(task: EmulationTask, sent: seq<SentTo>, id: Capturing.Handle, addr: nat, leaves: bool)
    requires task.Valid() && addr !in task.handles
    modifies task`handles, task`nextId, task.emulation
    ensures task.Valid()
    ensures !leaves ==> task.DownAt(addr) == Down(InputsTo(sent, id))
    ensures !leaves && addr in task.handles ==>
              DownFor(task.emulation.log, task.handles[addr]) == Down(InputsTo(sent, id))
    ensures leaves && EndsWithLeave(sent, id) ==> addr !in task.handles && task.DownAt(addr) == {}
    ensures forall a :: a != addr ==> task.DownAt(a) == old(task.DownAt(a))
  {
    hide Down;
    assert sent[..0] == [] && Down(InputsTo([], id)) == {} by { NothingDown(id); }
    for k := 0 to |sent|
      invariant task.Valid()
      invariant !leaves ==> task.DownAt(addr) == Down(InputsTo(sent[..k], id))
      invariant leaves && EndsWithLeave(sent[..k], id) ==> addr !in task.handles
      invariant forall a :: a != addr ==> task.DownAt(a) == old(task.DownAt(a))
    {
      assert sent[..k + 1][..k] == sent[..k] && sent[..k + 1][k] == sent[k];
      if sent[k].id == id && sent[k].msg.Input? {
        DownMore(InputsTo(sent[..k], id), sent[k].msg.event);
        task.Input(sent[k].msg.event, addr);
      } else if leaves && sent[k].id == id && sent[k].msg.Leave? {
        task.Remove(addr);
      }
    }
    assert sent[..|sent|] == sent;
    if addr in task.handles { BackendHas(task, addr); }
  }

  /** The last input or leave message to `id` is a leave. */
  predicate EndsWithLeave(sent: seq<SentTo>, id: Capturing.Handle) {
    sent != []
    && var s := sent[|sent| - 1];
       if s.id == id && s.msg.Leave? then true
       else if s.id == id && s.msg.Input? then false
       else EndsWithLeave(sent[..|sent| - 1], id)
  }

  lemma NothingDown(id: Capturing.Handle)
    ensures Down(InputsTo([], id)) == {}
  {
  }

  lemma DownMore(es: seq<Event<real>>, e: Event<real>)
    ensures Down(es + [e]) == After(Down(es), e)
  {
    assert (es + [e])[..|es|] == es;
  }

  /** The backend has down for a sender exactly what is recorded for it. */
  lemma BackendHas(task: EmulationTask, addr: nat)
    requires task.Valid() && addr in task.handles
    ensures DownFor(task.emulation.log, task.handles[addr]) == task.DownAt(addr)
  {
    hide DownFor;
    assert task.handles[addr] in task.handles.Values;
  }

  /** A whole session, from the first captured event to the backend of the other
      machine, which had nothing down for this sender before. If every leave is
      lost, the backend is left with exactly the keys whose key-up was waiting
      behind another capture, so with none if and only if there is no such key. */
  method SessionArrives(t: Task, id: Capturing.Handle, pos: Position, mvs: seq<Move>, last: Move, task: EmulationTask,
                        addr: nat)
    requires Entering(t, id, pos) && OneSession(HandleEvent(t, id, Begin, true), id, pos, mvs + [last])
    requires DoMove(TaskAfter(HandleEvent(t, id, Begin, true), mvs), last).active != Some(id)
    requires task.Valid() && addr !in task.handles
    modifies task`handles, task`nextId, task.emulation
    ensures var before := TaskAfter(HandleEvent(t, id, Begin, true), mvs);
            && task.Valid() && task.DownAt(addr) == StuckKeys(before, id)
            && (addr in task.handles ==> DownFor(task.emulation.log, task.handles[addr]) == StuckKeys(before, id))
            && (task.DownAt(addr) == {} <==>
                  forall k :: k in PeerDown(before, id) && !Tuning.IsModifier(k) ==> !KeyUpWaiting(before, id, k))
  {
    hide Entering, OneSession, HandleEvent, DoMove, StuckKeys, DownFor;
    NoKeyStaysDown(t, id, pos, mvs, last);
    var after := DoMove(TaskAfter(HandleEvent(t, id, Begin, true), mvs), last);
    Receive(task, after.sent, id, addr, false);
  }
}
