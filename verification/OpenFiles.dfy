/** Open files, the descriptors and calls that share them, and the FAT nodes they pin
    (kernel/kernel/vfs/file.c, kernel/kernel/proc.c, kernel/kernel/syscall/file.c, the descriptor loop
    of proc_fork, kernel/kernel/fs/fat_vfs.c): any number of processes and calls, one critical section
    of a file's, a process's or the super node's mutex at a time. */
module OpenFiles {
  import opened Base
  import opened Eviction
  import opened FatNodes

  const MAX_FILES: nat := 16   // PROC_MAX_FILES
  const EUNSPEC: int := 2

  type FileId = nat
  type Pid = nat
  type CallId = nat

  /** What counts in a file's ref: descriptor `fd` of a process, or a call in flight, which has opened,
      borrowed or unbound the file. */
  datatype Handle = Fd(pid: Pid, fd: nat) | InFlight(call: CallId)

  /** struct file. `pinned`: the reference to the node has not been put. */
  datatype File = File(node: NodeId, cluster: nat, ref: nat, pinned: bool)

  /** What a call has got from vfs_get and not yet put in a file. */
  datatype Opening = Opening(node: NodeId, cluster: nat)

  /** `opening`: calls between vfs_get and the new file. `closing`: calls that dropped the last
      reference and have yet to put the node and free the file. */
  datatype State = State(
    nodes: seq<Node>,
    files: map<FileId, File>,
    handles: map<Handle, FileId>,
    opening: map<CallId, Opening>,
    closing: map<CallId, FileId>
  )

  datatype Step =
    | GetNode(call: CallId, cluster: nat, id: NodeId)    // vfs_get
    | NewFile(call: CallId, file: FileId)                // the rest of vfs_open
    | Bind(call: CallId, pid: Pid)                       // proc_get_vacant_fd and proc_bind
    | Borrow(call: CallId, pid: Pid, fd: nat)            // proc_get_file and vfs_file_dup
    | ForkFd(parent: Pid, child: Pid, fd: nat)           // one turn of proc_fork's loop
    | Unbind(call: CallId, pid: Pid, fd: nat)            // proc_unbind
    | Close(call: CallId)                                // vfs_close, under the node's lock
    | PutNode(call: CallId)                              // vfs_put
    | FreeFile(call: CallId)                             // kfree

  function Initial(): State {
    State([], map[], map[], map[], map[])
  }

  /** proc_get_vacant_fd: the first descriptor from `fd` on that is free, or MAX_FILES. */
  function VacantFd(handles: map<Handle, FileId>, pid: Pid, fd: nat): (r: nat)
    requires fd <= MAX_FILES
    ensures fd <= r <= MAX_FILES && (r < MAX_FILES ==> Fd(pid, r) !in handles)
    ensures forall i :: fd <= i < r ==> Fd(pid, i) in handles
    decreases MAX_FILES - fd
  {
    if fd == MAX_FILES || Fd(pid, fd) !in handles then fd else VacantFd(handles, pid, fd + 1)
  }

  /** A process's opened_files; each method runs under the process's mutex. */
  class Descriptors {
    const slots: array<Option<FileId>>

    ghost predicate Valid() {
      slots.Length == MAX_FILES
    }

    constructor ()
      ensures Valid() && fresh(slots) && forall i :: 0 <= i < MAX_FILES ==> slots[i] == None
    {
      slots := new Option<FileId>[MAX_FILES](_ => None);
    }

    /** proc_get_vacant_fd. */
    method GetVacantFd() returns (fd: int)
      requires Valid()
      ensures fd == -EUNSPEC || 0 <= fd < MAX_FILES
      ensures fd == -EUNSPEC <==> forall i :: 0 <= i < MAX_FILES ==> slots[i] != None
      ensures fd != -EUNSPEC ==> slots[fd] == None && forall i :: 0 <= i < fd ==> slots[i] != None
    {
      fd := 0;
      while fd < MAX_FILES
        invariant 0 <= fd <= MAX_FILES && forall i :: 0 <= i < fd ==> slots[i] != None
      {
        if slots[fd] == None {
          return;
        }
        fd := fd + 1;
      }
      fd := -EUNSPEC;
    }

    /** proc_get_file. */
    method GetFile(fd: int) returns (f: Option<FileId>)
      requires Valid()
      ensures f == if 0 <= fd < MAX_FILES then slots[fd] else None
    {
      if fd < 0 || fd >= MAX_FILES {
        return None;
      }
      return slots[fd];
    }

    /** proc_bind: it takes a vacant descriptor and no other. */
    method Bind(fd: int, f: FileId) returns (r: int)
      requires Valid()
      modifies slots
      ensures r == if 0 <= fd < MAX_FILES && old(slots[fd]) == None then fd else -EUNSPEC
      ensures slots[..] == if r == fd && fd >= 0 then old(slots[..])[fd := Some(f)] else old(slots[..])
    {
      if fd < 0 || fd >= MAX_FILES {
        return -EUNSPEC;
      }
      if slots[fd] != None {
        return -EUNSPEC;
      }
      slots[fd] := Some(f);
      return fd;
    }

    /** proc_unbind. */
    method Unbind(fd: int) returns (f: Option<FileId>)
      requires Valid()
      modifies slots
      ensures f == if 0 <= fd < MAX_FILES then old(slots[fd]) else None
      ensures slots[..] == if 0 <= fd < MAX_FILES then old(slots[..])[fd := None] else old(slots[..])
    {
      if fd < 0 || fd >= MAX_FILES {
        return None;
      }
      f := slots[fd];
      slots[fd] := None;
    }
  }

  predicate Free(s: State, call: CallId) {
    call !in s.opening && call !in s.closing && InFlight(call) !in s.handles
  }

  predicate Enabled(s: State, step: Step) {
    match step
    case GetNode(call, cluster, id) => Free(s, call) && forall k :: 0 <= k < |s.nodes| ==> s.nodes[k].id != id
    case NewFile(call, file) => call in s.opening && file !in s.files && InFlight(call) !in s.handles
    case Bind(call, pid) => InFlight(call) in s.handles && VacantFd(s.handles, pid, 0) < MAX_FILES
    case Borrow(call, pid, fd) => Free(s, call) && Fd(pid, fd) in s.handles
    case ForkFd(parent, child, fd) => Fd(parent, fd) in s.handles && Fd(child, fd) !in s.handles
    case Unbind(call, pid, fd) => Free(s, call) && Fd(pid, fd) in s.handles
    case Close(call) => InFlight(call) in s.handles && call !in s.closing
    case PutNode(call) => call in s.closing && s.closing[call] in s.files && s.files[s.closing[call]].pinned
    case FreeFile(call) => call in s.closing && s.closing[call] in s.files && !s.files[s.closing[call]].pinned
  }

  /** The file and the node are there where the code follows its pointers to them. */
  predicate Safe(s: State, step: Step) {
    match step
    case Borrow(call, pid, fd) => Fd(pid, fd) in s.handles && s.handles[Fd(pid, fd)] in s.files
    case ForkFd(parent, child, fd) => Fd(parent, fd) in s.handles && s.handles[Fd(parent, fd)] in s.files
    case Close(call) =>
      InFlight(call) in s.handles && s.handles[InFlight(call)] in s.files && s.files[s.handles[InFlight(call)]].ref > 0
    case PutNode(call) =>
      && call in s.closing && s.closing[call] in s.files
      && var k := Position(s.nodes, s.files[s.closing[call]].node, 0); k < |s.nodes| && s.nodes[k].ref > 0
    case _ => true
  }

  function Dup(s: State, h: Handle, f: FileId): State
    requires f in s.files
  {
    s.(handles := s.handles[h := f], files := s.files[f := s.files[f].(ref := s.files[f].ref + 1)])
  }

  function Apply(s: State, step: Step): State
    requires Enabled(s, step) && Safe(s, step)
  {
    match step
    case GetNode(call, cluster, id) =>
      s.(nodes := Got(s.nodes, cluster, id), opening := s.opening[call := Opening(GotId(s.nodes, cluster, id), cluster)])
    case NewFile(call, file) =>
      s.(files := s.files[file := File(s.opening[call].node, s.opening[call].cluster, 1, true)],
         opening := s.opening - {call}, handles := s.handles[InFlight(call) := file])
    case Bind(call, pid) =>
      s.(handles := (s.handles - {InFlight(call)})[Fd(pid, VacantFd(s.handles, pid, 0)) := s.handles[InFlight(call)]])
    case Borrow(call, pid, fd) => Dup(s, InFlight(call), s.handles[Fd(pid, fd)])
    case ForkFd(parent, child, fd) => Dup(s, Fd(child, fd), s.handles[Fd(parent, fd)])
    case Unbind(call, pid, fd) =>
      s.(handles := (s.handles - {Fd(pid, fd)})[InFlight(call) := s.handles[Fd(pid, fd)]])
    case Close(call) =>
      var f := s.handles[InFlight(call)];
      var file := s.files[f].(ref := s.files[f].ref - 1);
      s.(handles := s.handles - {InFlight(call)}, files := s.files[f := file],
         closing := if file.ref == 0 then s.closing[call := f] else s.closing)
    case PutNode(call) =>
      var f := s.closing[call];
      var k := Position(s.nodes, s.files[f].node, 0);
      s.(nodes := Truncated(Unreferenced(s.nodes, k)), files := s.files[f := s.files[f].(pinned := false)])
    case FreeFile(call) => s.(files := s.files - {s.closing[call]}, closing := s.closing - {call})
  }

  // What every step keeps.

  ghost function HandlesOf(handles: map<Handle, FileId>, f: FileId): set<Handle> {
    set h | h in handles && handles[h] == f
  }

  ghost function FilesOn(files: map<FileId, File>, id: NodeId): set<FileId> {
    set f | f in files && files[f].pinned && files[f].node == id
  }

  ghost function CallsOn(opening: map<CallId, Opening>, id: NodeId): set<CallId> {
    set c | c in opening && opening[c].node == id
  }

  /** The files and calls that pin a node. */
  ghost function Pins(files: map<FileId, File>, opening: map<CallId, Opening>, id: NodeId): nat {
    |FilesOn(files, id)| + |CallsOn(opening, id)|
  }

  /** A file's ref is the number of its handles; with none left, one call is closing it. */
  ghost predicate FilesOk(files: map<FileId, File>, handles: map<Handle, FileId>, closing: map<CallId, FileId>) {
    && (forall h :: h in handles ==> handles[h] in files)
    && (forall f :: f in files ==> files[f].ref == |HandlesOf(handles, f)| && (files[f].ref > 0 ==> files[f].pinned))
    && (forall f :: f in files && files[f].ref == 0 ==> exists c :: c in closing && closing[c] == f)
    && (forall c :: c in closing ==> closing[c] in files && files[closing[c]].ref == 0)
    && (forall c, c' :: c in closing && c' in closing && closing[c] == closing[c'] ==> c == c')
  }

  /** A node's ref is the number of files and calls that pin it, and what is pinned is cached. */
  ghost predicate NodesOk(nodes: seq<Node>, files: map<FileId, File>, opening: map<CallId, Opening>) {
    && Distinct(nodes) && Idle(nodes) <= THRESHOLD
    && (forall id :: RefOf(nodes, id) == Pins(files, opening, id))
    && (forall f :: f in files && files[f].pinned ==> Has(nodes, files[f].node, files[f].cluster))
    && (forall c :: c in opening ==> Has(nodes, opening[c].node, opening[c].cluster))
  }

  ghost predicate Inv(s: State) {
    FilesOk(s.files, s.handles, s.closing) && NodesOk(s.nodes, s.files, s.opening)
  }

  lemma InitialInv()
    ensures Inv(Initial())
  {
    forall id: NodeId ensures FilesOn(map[], id) == {} && CallsOn(map[], id) == {} {
    }
  }

  // Handles.

  lemma HandleAdded(handles: map<Handle, FileId>, h: Handle, f: FileId)
    requires h !in handles
    ensures forall g :: |HandlesOf(handles[h := f], g)| == |HandlesOf(handles, g)| + if g == f then 1 else 0
  {
    hide HandlesOf;
    forall g ensures |HandlesOf(handles[h := f], g)| == |HandlesOf(handles, g)| + if g == f then 1 else 0 {
      HandleAddedTo(handles, h, f, g);
    }
  }

  lemma HandleAddedTo(handles: map<Handle, FileId>, h: Handle, f: FileId, g: FileId)
    requires h !in handles
    ensures |HandlesOf(handles[h := f], g)| == |HandlesOf(handles, g)| + if g == f then 1 else 0
  {
    assert HandlesOf(handles[h := f], g) == HandlesOf(handles, g) + if g == f then {h} else {};
  }

  lemma HandleDropped(handles: map<Handle, FileId>, h: Handle)
    requires h in handles
    ensures forall g :: |HandlesOf(handles - {h}, g)| == |HandlesOf(handles, g)| - if g == handles[h] then 1 else 0
  {
    hide HandlesOf;
    forall g ensures |HandlesOf(handles - {h}, g)| == |HandlesOf(handles, g)| - if g == handles[h] then 1 else 0 {
      HandleDroppedFrom(handles, h, g);
    }
  }

  lemma HandleDroppedFrom(handles: map<Handle, FileId>, h: Handle, g: FileId)
    requires h in handles
    ensures |HandlesOf(handles - {h}, g)| == |HandlesOf(handles, g)| - if g == handles[h] then 1 else 0
  {
    assert HandlesOf(handles, g) == HandlesOf(handles - {h}, g) + if g == handles[h] then {h} else {};
  }

  lemma HeldCounts(handles: map<Handle, FileId>, h: Handle)
    requires h in handles
    ensures |HandlesOf(handles, handles[h])| > 0
  {
    assert h in HandlesOf(handles, handles[h]);
  }

  /** The file behind a handle is live, referenced and pins its node. */
  lemma HeldFile(s: State, h: Handle)
    requires Inv(s) && h in s.handles
    ensures s.handles[h] in s.files
    ensures var file := s.files[s.handles[h]]; file.ref > 0 && file.pinned && Has(s.nodes, file.node, file.cluster)
  {
    HeldCounts(s.handles, h);
  }

  lemma MoveFiles(files: map<FileId, File>, handles: map<Handle, FileId>, closing: map<CallId, FileId>, h: Handle,
                  h': Handle)
    requires FilesOk(files, handles, closing) && h in handles && h' !in handles
    ensures FilesOk(files, (handles - {h})[h' := handles[h]], closing)
  {
    hide HandlesOf;
    HandleDropped(handles, h);
    HandleAdded(handles - {h}, h', handles[h]);
  }

  lemma DupFiles(files: map<FileId, File>, handles: map<Handle, FileId>, closing: map<CallId, FileId>, h: Handle,
                 f: FileId)
    requires FilesOk(files, handles, closing) && h !in handles && f in files && files[f].ref > 0
    ensures FilesOk(files[f := files[f].(ref := files[f].ref + 1)], handles[h := f], closing)
  {
    hide HandlesOf;
    HandleAdded(handles, h, f);
  }

  lemma NewFiles(files: map<FileId, File>, handles: map<Handle, FileId>, closing: map<CallId, FileId>, h: Handle,
                 f: FileId, file: File)
    requires FilesOk(files, handles, closing) && h !in handles && f !in files && file.ref == 1 && file.pinned
    ensures FilesOk(files[f := file], handles[h := f], closing)
  {
    HandleAdded(handles, h, f);
    assert HandlesOf(handles, f) == {};
    hide HandlesOf;
  }

  lemma CloseFiles(files: map<FileId, File>, handles: map<Handle, FileId>, closing: map<CallId, FileId>, call: CallId)
    requires FilesOk(files, handles, closing) && InFlight(call) in handles && call !in closing
    requires files[handles[InFlight(call)]].ref > 0
    ensures var f := handles[InFlight(call)];
            var file := files[f].(ref := files[f].ref - 1);
            FilesOk(files[f := file], handles - {InFlight(call)}, if file.ref == 0 then closing[call := f] else closing)
  {
    hide HandlesOf;
    HandleDropped(handles, InFlight(call));
    var f := handles[InFlight(call)];
    var files' := files[f := files[f].(ref := files[f].ref - 1)];
    var closing' := if files'[f].ref == 0 then closing[call := f] else closing;
    forall g | g in files' && files'[g].ref == 0 ensures exists c :: c in closing' && closing'[c] == g {
      if g == f {
        assert call in closing' && closing'[call] == f;
      } else {
        var c :| c in closing && closing[c] == g;
        assert c in closing' && closing'[c] == g;
      }
    }
  }

  lemma UnpinFiles(files: map<FileId, File>, handles: map<Handle, FileId>, closing: map<CallId, FileId>, f: FileId)
    requires FilesOk(files, handles, closing) && f in files && files[f].ref == 0
    ensures FilesOk(files[f := files[f].(pinned := false)], handles, closing)
  {
    hide HandlesOf;
  }

  lemma FreeFiles(files: map<FileId, File>, handles: map<Handle, FileId>, closing: map<CallId, FileId>, call: CallId)
    requires FilesOk(files, handles, closing) && call in closing
    ensures FilesOk(files - {closing[call]}, handles, closing - {call})
  {
    var f := closing[call];
    forall h | h in handles ensures handles[h] != f {
      HeldCounts(handles, h);
    }
    hide HandlesOf;
    forall g | g in files - {f} && (files - {f})[g].ref == 0
      ensures exists c :: c in closing - {call} && (closing - {call})[c] == g
    {
      var c :| c in closing && closing[c] == g;
      assert c in closing - {call} && (closing - {call})[c] == g;
    }
  }

  // Nodes.

  lemma SameNodes(nodes: seq<Node>, files: map<FileId, File>, files': map<FileId, File>, opening: map<CallId, Opening>)
    requires NodesOk(nodes, files, opening)
    requires forall f :: (f in files && files[f].pinned) <==> (f in files' && files'[f].pinned)
    requires forall f :: f in files && f in files' ==>
               files'[f].node == files[f].node && files'[f].cluster == files[f].cluster
    ensures NodesOk(nodes, files', opening)
  {
    hide CallsOn, Distinct, Idle, Has, RefOf;
    forall id ensures RefOf(nodes, id) == Pins(files', opening, id) {
      assert FilesOn(files', id) == FilesOn(files, id);
      assert RefOf(nodes, id) == Pins(files, opening, id);
    }
  }

  lemma CallAdded(opening: map<CallId, Opening>, call: CallId, o: Opening, id: NodeId)
    requires call !in opening
    ensures |CallsOn(opening[call := o], id)| == |CallsOn(opening, id)| + if id == o.node then 1 else 0
  {
    assert CallsOn(opening[call := o], id) == CallsOn(opening, id) + if id == o.node then {call} else {};
  }

  lemma CallDropped(opening: map<CallId, Opening>, call: CallId, id: NodeId)
    requires call in opening
    ensures |CallsOn(opening - {call}, id)| == |CallsOn(opening, id)| - if id == opening[call].node then 1 else 0
  {
    if id == opening[call].node {
      assert CallsOn(opening, id) == CallsOn(opening - {call}, id) + {call};
    } else {
      assert CallsOn(opening - {call}, id) == CallsOn(opening, id);
    }
  }

  lemma FileAdded(files: map<FileId, File>, f: FileId, file: File, id: NodeId)
    requires f !in files && file.pinned
    ensures |FilesOn(files[f := file], id)| == |FilesOn(files, id)| + if id == file.node then 1 else 0
  {
    assert FilesOn(files[f := file], id) == FilesOn(files, id) + if id == file.node then {f} else {};
  }

  lemma FileUnpinned(files: map<FileId, File>, f: FileId, id: NodeId)
    requires f in files && files[f].pinned
    ensures |FilesOn(files[f := files[f].(pinned := false)], id)| == |FilesOn(files, id)| - if id ==
            files[f].node then 1 else 0
  {
    var files' := files[f := files[f].(pinned := false)];
    if id == files[f].node {
      assert FilesOn(files, id) == FilesOn(files', id) + {f};
    } else {
      assert FilesOn(files', id) == FilesOn(files, id);
    }
  }

  lemma PinnedCounts(files: map<FileId, File>, opening: map<CallId, Opening>)
    ensures forall f :: f in files && files[f].pinned ==> Pins(files, opening, files[f].node) > 0
    ensures forall c :: c in opening ==> Pins(files, opening, opening[c].node) > 0
  {
    forall f | f in files && files[f].pinned ensures Pins(files, opening, files[f].node) > 0 {
      assert f in FilesOn(files, files[f].node);
    }
    forall c | c in opening ensures Pins(files, opening, opening[c].node) > 0 {
      assert c in CallsOn(opening, opening[c].node);
    }
  }

  lemma GetNodes(nodes: seq<Node>, files: map<FileId, File>, opening: map<CallId, Opening>, call: CallId, cluster: nat,
                 id: NodeId)
    requires NodesOk(nodes, files, opening) && call !in opening && forall k :: 0 <= k < |nodes| ==> nodes[k].id != id
    ensures NodesOk(Got(nodes, cluster, id), files, opening[call := Opening(GotId(nodes, cluster, id), cluster)])
  {
    GotNodes(nodes, cluster, id);
    GotUnused(nodes, cluster, id);
    hide Distinct, Idle, Has, RefOf, Got, GotId, FilesOn, CallsOn;
    var o := Opening(GotId(nodes, cluster, id), cluster);
    forall x ensures RefOf(Got(nodes, cluster, id), x) == Pins(files, opening[call := o], x) {
      CallAdded(opening, call, o, x);
      assert RefOf(nodes, x) == Pins(files, opening, x);
    }
  }

  lemma NewNodes(nodes: seq<Node>, files: map<FileId, File>, opening: map<CallId, Opening>, call: CallId, f: FileId,
                 file: File)
    requires NodesOk(nodes, files, opening) && call in opening && f !in files && file.pinned
    requires file.node == opening[call].node && file.cluster == opening[call].cluster
    ensures NodesOk(nodes, files[f := file], opening - {call})
  {
    hide Distinct, Idle, Has, RefOf, FilesOn, CallsOn;
    forall id ensures RefOf(nodes, id) == Pins(files[f := file], opening - {call}, id) {
      assert RefOf(nodes, id) == Pins(files, opening, id);
      CallDropped(opening, call, id);
      FileAdded(files, f, file, id);
    }
  }

  /** The node a pinned file puts is cached and referenced. */
  lemma PinnedNode(nodes: seq<Node>, files: map<FileId, File>, opening: map<CallId, Opening>, f: FileId)
    requires NodesOk(nodes, files, opening) && f in files && files[f].pinned
    ensures var k := Position(nodes, files[f].node, 0); k < |nodes| && nodes[k].ref > 0 && nodes[k].id == files[f].node
  {
    hide Pins;
    PinnedCounts(files, opening);
    assert RefOf(nodes, files[f].node) == Pins(files, opening, files[f].node);
  }

  lemma PutNodes(nodes: seq<Node>, files: map<FileId, File>, opening: map<CallId, Opening>, f: FileId, k: nat)
    requires NodesOk(nodes, files, opening) && f in files && files[f].pinned
    requires k < |nodes| && nodes[k].ref > 0 && nodes[k].id == files[f].node
    ensures NodesOk(Truncated(Unreferenced(nodes, k)), files[f := files[f].(pinned := false)], opening)
  {
    hide Distinct, Idle, Has, RefOf, Truncated, FilesOn, CallsOn;
    var files', left := files[f := files[f].(pinned := false)], Unreferenced(nodes, k);
    UnreferencedNodes(nodes, k);
    TruncatedNodes(left);
    PutIdle(nodes, k);
    forall id ensures RefOf(left, id) == Pins(files', opening, id) {
      assert RefOf(nodes, id) == Pins(files, opening, id);
      FileUnpinned(files, f, id);
    }
    PinnedCounts(files', opening);
  }

  // Steps.

  /** No step follows a pointer to a file or a node that is gone. */
  lemma StepSafe(s: State, step: Step)
    requires Inv(s) && Enabled(s, step)
    ensures Safe(s, step)
  {
    hide NodesOk, FilesOk;
    match step
    case Borrow(call, pid, fd) => HeldFile(s, Fd(pid, fd));
    case ForkFd(parent, child, fd) => HeldFile(s, Fd(parent, fd));
    case Close(call) => HeldFile(s, InFlight(call));
    case PutNode(call) => PinnedNode(s.nodes, s.files, s.opening, s.closing[call]);
    case _ =>
  }

  lemma ApplyKeeps(s: State, step: Step)
    requires Inv(s) && Enabled(s, step) && Safe(s, step)
    ensures Inv(Apply(s, step))
  {
    hide NodesOk, FilesOk;
    match step
    case GetNode(call, cluster, id) => GetNodes(s.nodes, s.files, s.opening, call, cluster, id);
    case NewFile(call, f) =>
      var file := File(s.opening[call].node, s.opening[call].cluster, 1, true);
      NewFiles(s.files, s.handles, s.closing, InFlight(call), f, file);
      NewNodes(s.nodes, s.files, s.opening, call, f, file);
    case Bind(call, pid) =>
      MoveFiles(s.files, s.handles, s.closing, InFlight(call), Fd(pid, VacantFd(s.handles, pid, 0)));
    case Borrow(call, pid, fd) => DupKeeps(s, InFlight(call), Fd(pid, fd));
    case ForkFd(parent, child, fd) => DupKeeps(s, Fd(child, fd), Fd(parent, fd));
    case Unbind(call, pid, fd) => MoveFiles(s.files, s.handles, s.closing, Fd(pid, fd), InFlight(call));
    case Close(call) =>
      CloseFiles(s.files, s.handles, s.closing, call);
      SameNodes(s.nodes, s.files, Apply(s, step).files, s.opening);
    case PutNode(call) =>
      ClosingFile(s, call);
      UnpinFiles(s.files, s.handles, s.closing, s.closing[call]);
      PutNodes(s.nodes, s.files, s.opening, s.closing[call], Position(s.nodes, s.files[s.closing[call]].node, 0));
    case FreeFile(call) =>
      FreeFiles(s.files, s.handles, s.closing, call);
      SameNodes(s.nodes, s.files, Apply(s, step).files, s.opening);
  }

  lemma ClosingFile(s: State, call: CallId)
    requires Inv(s) && call in s.closing
    ensures s.closing[call] in s.files && s.files[s.closing[call]].ref == 0
  {
  }

  lemma DupKeeps(s: State, h: Handle, from: Handle)
    requires Inv(s) && h !in s.handles && from in s.handles && s.handles[from] in s.files
    ensures Inv(Dup(s, h, s.handles[from]))
  {
    hide NodesOk, FilesOk;
    HeldFile(s, from);
    DupFiles(s.files, s.handles, s.closing, h, s.handles[from]);
    SameNodes(s.nodes, s.files, Dup(s, h, s.handles[from]).files, s.opening);
  }

  // Whole runs.

  ghost predicate IsRun(states: seq<State>, steps: seq<Step>) {
    && |states| == |steps| + 1 && states[0] == Initial()
    && (forall i :: 0 <= i < |steps| ==>
          && Enabled(states[i], steps[i])
          && (Safe(states[i], steps[i]) ==> states[i + 1] == Apply(states[i], steps[i])))
  }

  lemma {:induction false} RunInv(states: seq<State>, steps: seq<Step>, i: nat)
    requires IsRun(states, steps) && i < |states|
    ensures Inv(states[i])
  {
    hide Inv, Enabled, Apply, Safe;
    if i == 0 {
      InitialInv();
    } else {
      RunInv(states, steps, i - 1);
      StepSafe(states[i - 1], steps[i - 1]);
      ApplyKeeps(states[i - 1], steps[i - 1]);
    }
  }

  /** No call ever follows a pointer to a freed file, or puts a node that is not there. */
  lemma NeverDangling(states: seq<State>, steps: seq<Step>, i: nat)
    requires IsRun(states, steps) && i < |steps|
    ensures Safe(states[i], steps[i])
  {
    hide Inv, Enabled, Apply, Safe;
    RunInv(states, steps, i);
    StepSafe(states[i], steps[i]);
  }

  /** A file's ref is its descriptors over all processes and its calls in flight; a file with one is
      live, and its node is cached and is still the node of the cluster it was opened for. */
  lemma ReachableFileLives(states: seq<State>, steps: seq<Step>, i: nat, h: Handle)
    requires IsRun(states, steps) && i < |states| && h in states[i].handles
    ensures var s, f := states[i], states[i].handles[h];
            && f in s.files && s.files[f].ref == |set g | g in s.handles && s.handles[g] == f|
            && Has(s.nodes, s.files[f].node, s.files[f].cluster)
  {
    hide IsRun;
    RunInv(states, steps, i);
    HeldFile(states[i], h);
    var s, f := states[i], states[i].handles[h];
    assert HandlesOf(s.handles, f) == set g | g in s.handles && s.handles[g] == f;
  }

  /** There is one node for each first cluster. */
  lemma OneNodePerCluster(states: seq<State>, steps: seq<Step>, i: nat, j: nat, k: nat)
    requires IsRun(states, steps) && i < |states| && j < |states[i].nodes| && k < |states[i].nodes|
    requires states[i].nodes[j].cluster == states[i].nodes[k].cluster
    ensures j == k
  {
    hide IsRun;
    RunInv(states, steps, i);
  }

  /** At most 30 nodes are evictable, so there are at most 30 more than are referenced, apart from
      unreferenced nodes hit UINT_MAX times. */
  lemma FewIdleNodes(states: seq<State>, steps: seq<Step>, i: nat)
    requires IsRun(states, steps) && i < |states|
    ensures Idle(states[i].nodes) <= THRESHOLD
    ensures |states[i].nodes| <= THRESHOLD + Referenced(states[i].nodes) + Stuck(states[i].nodes)
  {
    hide IsRun;
    RunInv(states, steps, i);
    NodesAre(states[i].nodes);
  }

  /** The step is a put that leaves more than 30 nodes unreferenced. */
  predicate CrossesStep(s: State, step: Step) {
    && step.PutNode? && Safe(s, step)
    && Crosses(s.nodes, Position(s.nodes, s.files[s.closing[step.call]].node, 0))
  }

  /** The nodes beyond the referenced ones. */
  function Unpinned(s: State): nat {
    Idle(s.nodes) + Stuck(s.nodes)
  }

  lemma StepBound(s: State, step: Step)
    requires Enabled(s, step) && Safe(s, step) && Unpinned(s) <= THRESHOLD
    ensures Unpinned(Apply(s, step)) <= THRESHOLD <==> !CrossesStep(s, step)
  {
    hide Idle, Stuck;
    match step
    case GetNode(call, cluster, id) => GotUnused(s.nodes, cluster, id);
    case PutNode(call) => PutKeepsBound(s.nodes, Position(s.nodes, s.files[s.closing[call]].node, 0));
    case _ =>
  }

  /** Up to any point of a run at most 30 nodes were unreferenced throughout, if and only if no put before
      it was of the last reference to a node hit UINT_MAX times with 30 such nodes unreferenced and none
      evictable. */
  lemma {:induction false} FewUnreferencedNodes(states: seq<State>, steps: seq<Step>, n: nat)
    requires IsRun(states, steps) && n < |states|
    ensures (forall i :: 0 <= i <= n ==> Unpinned(states[i]) <= THRESHOLD) <==>
            (forall i :: 0 <= i < n ==> !CrossesStep(states[i], steps[i]))
  {
    hide Enabled, Apply, Safe, CrossesStep, Unpinned;
    if n == 0 {
      NoNodes();
    } else {
      FewUnreferencedNodes(states, steps, n - 1);
      NeverDangling(states, steps, n - 1);
      assert states[n - 1 + 1] == Apply(states[n - 1], steps[n - 1]);
      if Unpinned(states[n - 1]) <= THRESHOLD {
        StepBound(states[n - 1], steps[n - 1]);
      }
    }
  }

  lemma NoNodes()
    ensures Unpinned(Initial()) == 0
  {
  }
}
