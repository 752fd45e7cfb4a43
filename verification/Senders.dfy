/** The sending side of one connection: the tasks that stream files and folders,
    the drag being announced, and the ordered channel to the receiver. */
module Senders {
  import opened Basics
  import opened Disk
  import opened Receiving
  import opened Frames

  const TREE_WINDOW := 3

  /** `Offer`: how a file is announced */
  datatype Home = Plain | InDrag(drag: nat) | InTree(tree: nat)

  /** Where `send_file` is. `Failing`: an item of a drag could not be opened and
      was offered only to be cancelled. */
  datatype Phase = Ready | Failing | Waiting | Streaming | Over

  /** One `send_file` task; `aborted` is its cancellation token, `offered` whether its
      offer was sent, `left` how much of the file was not read yet. */
  datatype Task = Task(home: Home, phase: Phase, size: nat, offset: nat, left: nat, aborted: bool, offered: bool)

  /** Where `send_tree` is. `Unreadable`: the walk failed and the folder was only announced. */
  datatype FolderPhase = Walking | Unreadable | Listing | Filling | Closed

  /** One `send_tree` task; `dirs` subdirectories and files of the lengths `files` were not sent yet. */
  datatype Folder = Folder(drag: Option<nat>, phase: FolderPhase, error: bool, dirs: nat, files: seq<nat>)

  /** What is sent: a file of some length, or a folder with some subdirectories and files. */
  datatype Item = OneFile(length: nat) | OneFolder(dirs: nat, files: seq<nat>)

  /** Both ends: the sender's tasks, the drags it announced, the one not resolved
      yet, the messages under way, the receiver, and how many of its replies the
      sender has read. Ids are drawn from `next`. */
  datatype Sys = Sys(files: map<nat, Task>, folders: map<nat, Folder>, drags: set<nat>, current: Option<nat>,
                     chan: seq<Message>, rx: State, answered: nat, next: nat)
  {
    function Send(m: Message): Sys { this.(chan := chan + [m]) }

    function WithFile(id: nat, t: Task): Sys { this.(files := files[id := t]) }

    function WithFolder(t: nat, f: Folder): Sys { this.(folders := folders[t := f]) }

    /** A task gave up: its folder, if any, will be closed with an error. */
    function Fail(id: nat): Sys
      requires id in files
    {
      var s := WithFile(id, files[id].(phase := Over));
      if files[id].home.InTree? && files[id].home.tree in folders then
        s.WithFolder(files[id].home.tree, folders[files[id].home.tree].(error := true))
      else s
    }

    /** The files of folder `t` that are still being sent. */
    function Running(t: nat): set<nat> {
      set id | id in files && files[id].home == InTree(t) && files[id].phase != Over
    }
  }

  datatype Step =
    | SendPlain(length: nat) | SendFolder(dirs: nat, files: seq<nat>)
    | StartDrag(items: seq<Item>) | ReleaseDrag | CancelDrag
    | OpenFile(id: nat, name: string, size: nat) | OpenFails(id: nat, name: string) | CancelUnopened(id: nat,
        why: Reason)
    | SendChunk(id: nat, data: Bytes) | ReadFails(id: nat, why: Reason) | Finish(id: nat, digest: Digest, why: Reason)
    | StopAborted(id: nat)
    | Walked(tree: nat, name: string, count: nat, bytes: nat) | WalkFails(tree: nat, name: string)
    | CloseUnreadable(tree: nat, text: string) | SendDir(tree: nat, rel: string) | StartFiles(tree: nat)
    | StartFile(tree: nat) | CloseFolder(tree: nat, text: string)
    | Deliver(env: Env) | DeliverReply

  predicate PhaseIs(s: Sys, id: nat, p: Phase) { id in s.files && s.files[id].phase == p }

  predicate FolderIs(s: Sys, t: nat, p: FolderPhase) { t in s.folders && s.folders[t].phase == p }

  predicate Enabled(s: Sys, step: Step) {
    match step
    case SendPlain(_) => true
    case SendFolder(_, _) => true
    case StartDrag(items) => items != []
    case ReleaseDrag => s.current.Some?
    case CancelDrag => s.current.Some?
    case OpenFile(id, _, _) => PhaseIs(s, id, Ready)
    case OpenFails(id, _) => PhaseIs(s, id, Ready)
    case CancelUnopened(id, _) => PhaseIs(s, id, Failing)
    case SendChunk(id, data) => PhaseIs(s, id, Streaming) && 0 < |data| <= CHUNK_SIZE && |data| <= s.files[id].left
    case ReadFails(id, _) => PhaseIs(s, id, Streaming)
    case Finish(id, _, _) => PhaseIs(s, id, Streaming) && s.files[id].left == 0
    case StopAborted(id) => (PhaseIs(s, id, Waiting) || PhaseIs(s, id, Streaming)) && s.files[id].aborted
    case Walked(t, _, _, _) => FolderIs(s, t, Walking)
    case WalkFails(t, _) => FolderIs(s, t, Walking)
    case CloseUnreadable(t, _) => FolderIs(s, t, Unreadable)
    case SendDir(t, _) => FolderIs(s, t, Listing) && s.folders[t].dirs > 0
    case StartFiles(t) => FolderIs(s, t, Listing) && s.folders[t].dirs == 0
    case StartFile(t) =>
      FolderIs(s, t, Filling) && s.folders[t].files != [] && !s.folders[t].error && |s.Running(t)| < TREE_WINDOW
    case CloseFolder(t, _) =>
      FolderIs(s, t, Filling) && (s.folders[t].files == [] || s.folders[t].error) && s.Running(t) == {}
    case Deliver(_) => s.chan != []
    case DeliverReply => s.answered < |s.rx.replies|
  }

  function NewTask(home: Home, length: nat): Task { Task(home, Ready, 0, 0, length, false, false) }

  function StartTask(s: Sys, home: Home, length: nat): Sys {
    s.WithFile(s.next, NewTask(home, length)).(next := s.next + 1)
  }

  function StartFolder(s: Sys, drag: Option<nat>, dirs: nat, files: seq<nat>): Sys {
    s.WithFolder(s.next, Folder(drag, Walking, false, dirs, files)).(next := s.next + 1)
  }

  /** One task for each item of a drag, file or folder. */
  function StartItems(s: Sys, drag: nat, items: seq<Item>): Sys {
    if items == [] then s
    else
      var front := StartItems(s, drag, items[..|items| - 1]);
      match items[|items| - 1]
      case OneFile(length) => StartTask(front, InDrag(drag), length)
      case OneFolder(dirs, files) => StartFolder(front, Some(drag), dirs, files)
  }

  function OfferOf(home: Home, id: nat, name: string, size: nat): Message {
    match home
    case Plain => FileOffer(id, name, size)
    case InDrag(d) => DragOffer(d, id, name, size)
    case InTree(t) => TreeFile(t, id, name, size)
  }

  /** One step of either end. `OpenFile` to `StopAborted` are `stream_file`,
      `Walked` to `CloseFolder` are `send_tree`. */
  function Apply(s: Sys, step: Step): Sys
    requires Enabled(s, step)
  {
    match step
    case SendPlain(length) => StartTask(s, Plain, length)
    case SendFolder(dirs, files) => StartFolder(s, None, dirs, files)
    case StartDrag(items) =>
      var d := s.next;
      StartItems(s.(drags := s.drags + {d}, next := d + 1), d, items).Send(DragBegin(d, |items|)).(current := Some(d))
    case ReleaseDrag => s.Send(DragDrop(s.current.value)).(current := None)
    case CancelDrag => s.Send(DragCancel(s.current.value)).(current := None)
    case OpenFile(id, name, size) =>
      var t := s.files[id];
      s.Send(OfferOf(t.home, id, name, size)).WithFile(id, t.(phase := Waiting, size := size, offered := true))
    case OpenFails(id, name) =>
      var t := s.files[id];
      if t.home.InDrag?
      then s.Send(DragOffer(t.home.drag, id, name, 0)).WithFile(id, t.(phase := Failing, offered := true))
      else s.Fail(id)
    case CancelUnopened(id, why) => s.Send(FileCancel(id, why)).Fail(id)
    case SendChunk(id, data) =>
      var t := s.files[id];
      s.Send(FileChunk(id, t.offset, data)).WithFile(id, t.(offset := t.offset + |data|, left := t.left - |data|))
    case ReadFails(id, why) => s.Send(FileCancel(id, why)).Fail(id)
    case Finish(id, digest, why) =>
      var t := s.files[id];
      if t.offset == t.size then s.Send(FileDone(id, digest)).WithFile(id, t.(phase := Over))
      else s.Send(FileCancel(id, why)).Fail(id)
    case StopAborted(id) => s.Fail(id)
    case Walked(t, name, count, bytes) =>
      s.Send(TreeOffer(t, name, count, bytes, s.folders[t].drag)).WithFolder(t, s.folders[t].(phase := Listing))
    case WalkFails(t, name) =>
      s.Send(TreeOffer(t, name, 0, 0, s.folders[t].drag)).WithFolder(t, s.folders[t].(phase := Unreadable))
    case CloseUnreadable(t, text) => s.Send(TreeEnd(t, Some(text))).WithFolder(t, s.folders[t].(phase := Closed))
    case SendDir(t, rel) => s.Send(TreeDir(t, rel)).WithFolder(t, s.folders[t].(dirs := s.folders[t].dirs - 1))
    case StartFiles(t) => s.WithFolder(t, s.folders[t].(phase := Filling))
    case StartFile(t) =>
      var f := s.folders[t];
      StartTask(s.WithFolder(t, f.(files := f.files[1..])), InTree(t), f.files[0])
    case CloseFolder(t, text) =>
      s.Send(TreeEnd(t, if s.folders[t].error then Some(text) else None)).WithFolder(t, s.folders[t].(phase := Closed))
    case Deliver(env) => s.(rx := Handle(s.rx, s.chan[0], env), chan := s.chan[1..])
    case DeliverReply => Answer(s.(answered := s.answered + 1), s.rx.replies[s.answered])
  }

  /** `Outgoing::accepted`, `rejected` and `aborted`: a reply reaches its task */
  function Answer(s: Sys, r: Reply): Sys {
    if r.id !in s.files then s
    else
      match r
      case Accept(id) => if s.files[id].phase == Waiting then s.WithFile(id, s.files[id].(phase := Streaming)) else s
      case Reject(id, _) => if s.files[id].phase == Waiting then s.Fail(id) else s
      case Abort(id, _) => s.WithFile(id, s.files[id].(aborted := true))
  }

  /** The system after some steps, if each was enabled in its turn. */
  function Play(s: Sys, steps: seq<Step>): Option<Sys> {
    if steps == [] then Some(s)
    else
      var before := Play(s, steps[..|steps| - 1]);
      if before.Some? && Enabled(before.value, steps[|steps| - 1]) then Some(Apply(before.value, steps[|steps| - 1]))
      else None
  }

  /** Nothing was sent yet, to a receiver that just opened. */
  ghost predicate IsStart(s: Sys) {
    && s.files == map[] && s.folders == map[] && s.drags == {} && s.current == None && s.chan == [] && s.answered == 0
    && s.rx.recv == map[] && s.rx.trees == map[] && s.rx.drag == None && s.rx.replies == [] && s.rx.placed == []
  }

  /** Every task is through and every message was handled. */
  predicate Quiet(s: Sys) {
    && s.chan == []
    && (forall id :: id in s.files ==> s.files[id].phase == Over)
    && (forall t :: t in s.folders ==> s.folders[t].phase == Closed)
  }
}
