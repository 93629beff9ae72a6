// Any number of publishers, in any number of processes, constructing and destructing
// their parts step by step in any order, over the kernel's descriptor tables and the
// topic directories.
module PublisherWorld {
  import opened Wrappers
  import opened Bytes
  import Record = PublisherInfo

  type Int31 = n: int | 0 <= n < 0x8000_0000

  // A publisher is known by a number that is never used again, unlike its pid, its
  // descriptors and its file name.
  type Generation = nat

  // What a descriptor refers to.
  datatype Object =
    | QueueBuffer(gen: Generation, index: nat)
    | EventCounter(gen: Generation)
    | InfoBuffer(gen: Generation)
    | Foreign

  datatype Handle = Handle(pid: Int31, fd: Int31)

  // An info file: the topic's directory and the two numbers in its name.
  datatype Path = Path(topic: string, name: Handle)

  // Until it is closed, nobody is told about the file.
  datatype File = File(gen: Generation, closed: bool)

  // Where a publisher is in its constructor or destructor.
  datatype Phase =
    | Starting
    | Allocating
    | Describing
    | Writing(written: nat)
    | Creating
    | Live
    | Removed
    | Closing(closed: nat)
    | Dead

  datatype Publisher = Publisher(
    pid: Int31,
    topic: string,
    messageSize: uint64,
    queueSize: uint64,
    queueFds: seq<Int31>,
    eventFd: Int31,
    infoFd: Int31,
    advertised: bool,
    phase: Phase)
  {
    function Name(): Handle {
      Handle(pid, infoFd)
    }

    function FilePath(): Path {
      Path(topic, Name())
    }

    // Its queue buffer k is open.
    predicate HasQueue(k: nat) {
      k < |queueFds| && !phase.Dead? && (phase.Closing? ==> phase.closed <= k)
    }

    predicate HasEvent() {
      !(phase.Starting? || phase.Allocating? || phase.Dead?)
    }

    predicate HasInfo() {
      phase.Writing? || phase.Creating? || phase.Live? || phase.Removed?
    }

    // What it opened and has not closed: its parts, and descriptor 0 for ever.
    predicate KeepsQueue(k: nat) {
      HasQueue(k) || (k < |queueFds| && queueFds[k] == 0)
    }

    predicate KeepsEvent() {
      HasEvent() || (phase.Dead? && eventFd == 0)
    }

    predicate KeepsInfo() {
      HasInfo() || ((phase.Closing? || phase.Dead?) && infoFd == 0)
    }

    // Its record is complete, and from then on it is, for whoever has it mapped.
    predicate Filled() {
      phase.Creating? || phase.Live? || phase.Removed? || phase.Closing? || phase.Dead?
    }

    // Its info file is in the directory.
    predicate HasFile() {
      advertised && (phase.Creating? || phase.Live?)
    }
  }

  // The record a publisher describes itself with.
  function InfoOf(p: Publisher): Record.PublisherInfoT {
    Record.PublisherInfoT(
      p.queueSize, p.messageSize, p.pid, p.eventFd, p.queueFds, -1,
      seq(p.queueSize, _ => -1), seq(p.queueSize, _ => Record.TimeStamp(0, 0)), seq(p.queueSize, _ => 0))
  }

  function Packed(p: Publisher): seq<byte> {
    Record.Pack(InfoOf(p))
  }

  datatype World = World(
    pubs: map<Generation, Publisher>,
    fds: map<Handle, Object>,
    memory: map<Generation, seq<byte>>,
    files: map<Path, File>,
    dirs: map<string, nat>,
    nextDir: nat)

  // What the kernel tells the watchers of a directory.
  datatype Event = CloseWrite(name: Handle) | Delete(name: Handle) | DeleteSelf | Ignored

  datatype Notice = Silent | Notice(topic: string, event: Event)

  // ---------- Steps ----------

  // The steps of a constructor, in their order, and of a destructor.
  datatype Action =
    | InitTopicPath
    | AllocateBuffer(fd: Int31)
    | CreateEvent(fd: Int31)
    | AllocateInfo(fd: Int31, size: nat)
    | WriteInfo(count: nat)
    | CreateFile
    | CloseFile
    | RemoveFile
    | ResetInfo
    | ResetBuffer
    | ResetEvent

  // A publisher appears or acts, something else in some process opens or closes a
  // descriptor, or someone removes an empty topic directory.
  datatype Step =
    | Spawn(gen: Generation, pid: Int31, topic: string, messageSize: uint64, queueSize: uint64)
    | Act(gen: Generation, action: Action)
    | ForeignOpen(handle: Handle)
    | ForeignClose(handle: Handle)
    | RemoveDirectory(topic: string)

  predicate Enabled(w: World, s: Step) {
    match s
    case Spawn(gen, _, _, _, _) => gen !in w.pubs
    case Act(gen, a) => gen in w.pubs && CanAct(w.pubs[gen], w.fds, a)
    case ForeignOpen(h) => h !in w.fds
    case ForeignClose(h) => h in w.fds && w.fds[h].Foreign?
    case RemoveDirectory(topic) => topic in w.dirs && forall path :: path in w.files ==> path.topic != topic
  }

  // The order of the steps; the kernel hands out descriptors that are not open.
  predicate CanAct(p: Publisher, fds: map<Handle, Object>, a: Action) {
    match a
    case InitTopicPath => p.phase.Starting?
    case AllocateBuffer(fd) => p.phase.Allocating? && |p.queueFds| < p.queueSize && Handle(p.pid, fd) !in fds
    case CreateEvent(fd) => p.phase.Allocating? && |p.queueFds| == p.queueSize && Handle(p.pid, fd) !in fds
    case AllocateInfo(fd, size) =>
      p.phase.Describing? && |Packed(p)| <= size && |Packed(p)| < 0x8000_0000 && Handle(p.pid, fd) !in fds
    case WriteInfo(count) => p.phase.Writing? && p.phase.written + count <= |Packed(p)|
    case CreateFile => p.phase.Writing? && p.phase.written == |Packed(p)|
    case CloseFile => p.phase.Creating?
    case RemoveFile => p.phase.Live?
    case ResetInfo => p.phase.Removed?
    case ResetBuffer => p.phase.Closing? && p.phase.closed < |p.queueFds|
    case ResetEvent => p.phase.Closing? && p.phase.closed == |p.queueFds|
  }

  // The publisher after an action,
  function Advanced(p: Publisher, fds: map<Handle, Object>, dirs: map<string, nat>, a: Action): Publisher
    requires CanAct(p, fds, a)
  {
    match a
    case InitTopicPath => p.(phase := Allocating)
    case AllocateBuffer(fd) => p.(queueFds := p.queueFds + [fd])
    case CreateEvent(fd) => p.(eventFd := fd, phase := Describing)
    case AllocateInfo(fd, size) => p.(infoFd := fd, phase := Writing(0))
    case WriteInfo(count) => p.(phase := Writing(p.phase.written + count))
    case CreateFile => p.(phase := Creating, advertised := p.topic in dirs)
    case CloseFile => p.(phase := Live)
    case RemoveFile => p.(phase := Removed)
    case ResetInfo => p.(phase := Closing(0))
    case ResetBuffer => p.(phase := Closing(p.phase.closed + 1))
    case ResetEvent => p.(phase := Dead)
  }

  // Closing leaves descriptor 0 alone.
  function Close(fds: map<Handle, Object>, h: Handle): map<Handle, Object> {
    if h.fd > 0 then fds - {h} else fds
  }

  // the open descriptors,
  function FdsAfter(p: Publisher, gen: Generation, fds: map<Handle, Object>, a: Action): map<Handle, Object>
    requires CanAct(p, fds, a)
  {
    match a
    case AllocateBuffer(fd) => fds[Handle(p.pid, fd) := QueueBuffer(gen, |p.queueFds|)]
    case CreateEvent(fd) => fds[Handle(p.pid, fd) := EventCounter(gen)]
    case AllocateInfo(fd, _) => fds[Handle(p.pid, fd) := InfoBuffer(gen)]
    case ResetInfo => Close(fds, Handle(p.pid, p.infoFd))
    case ResetBuffer => Close(fds, Handle(p.pid, p.queueFds[p.phase.closed]))
    case ResetEvent => Close(fds, Handle(p.pid, p.eventFd))
    case _ => fds
  }

  function Overwritten(memory: seq<byte>, from: nat, bytes: seq<byte>): (r: seq<byte>)
    requires from + |bytes| <= |memory|
    ensures |r| == |memory|
  {
    memory[..from] + bytes + memory[from + |bytes|..]
  }

  // the publisher's info buffer,
  function BufferAfter(phase: Phase, packed: seq<byte>, buffer: seq<byte>, a: Action): seq<byte> {
    match a
    case AllocateInfo(_, size) => Zeros(size)
    case WriteInfo(count) =>
      if phase.Writing? && phase.written + count <= |packed| && phase.written + count <= |buffer|
      then Overwritten(buffer, phase.written, packed[phase.written..phase.written + count]) else buffer
    case _ => buffer
  }

  // the info files,
  function FilesAfter(p: Publisher, gen: Generation, files: map<Path, File>, dirs: map<string, nat>,
      a: Action): map<Path, File> {
    match a
    case CreateFile =>
      // Opening creates the file, or finds one of that name, or fails for want of a
      // directory.
      if p.topic !in dirs || p.FilePath() in files then files else files[p.FilePath() := File(gen, false)]
    case CloseFile =>
      if p.advertised && p.FilePath() in files
      then files[p.FilePath() := files[p.FilePath()].(closed := true)] else files
    case RemoveFile => files - {p.FilePath()}   // whatever file has that name
    case _ => files
  }

  function BufferOf(memory: map<Generation, seq<byte>>, gen: Generation): seq<byte> {
    if gen in memory then memory[gen] else []
  }

  // and the whole system.
  function Next(w: World, s: Step): World
    requires Enabled(w, s)
  {
    match s
    case Spawn(gen, pid, topic, messageSize, queueSize) =>
      w.(pubs := w.pubs[gen := Publisher(pid, topic, messageSize, queueSize, [], 0, 0, false, Starting)])
    case Act(gen, a) =>
      var p := w.pubs[gen];
      // The directory is created unless it exists.
      var made := a.InitTopicPath? && p.topic !in w.dirs;
      World(
        w.pubs[gen := Advanced(p, w.fds, w.dirs, a)],
        FdsAfter(p, gen, w.fds, a),
        w.memory[gen := BufferAfter(p.phase, Packed(p), BufferOf(w.memory, gen), a)],
        FilesAfter(p, gen, w.files, w.dirs, a),
        if made then w.dirs[p.topic := w.nextDir] else w.dirs,
        if made then w.nextDir + 1 else w.nextDir)
    case ForeignOpen(h) => w.(fds := w.fds[h := Foreign])
    case ForeignClose(h) => w.(fds := w.fds - {h})
    case RemoveDirectory(topic) => w.(dirs := w.dirs - {topic})
  }

  // What a step tells the watchers of its topic.
  function NoticeOf(w: World, s: Step): Notice
    requires Enabled(w, s)
  {
    match s
    case Act(gen, CloseFile) =>
      var p := w.pubs[gen];
      if p.advertised then Notice(p.topic, CloseWrite(p.Name())) else Silent
    case Act(gen, RemoveFile) =>
      var p := w.pubs[gen];
      if p.FilePath() in w.files then Notice(p.topic, Delete(p.Name())) else Silent
    case RemoveDirectory(topic) => Notice(topic, DeleteSelf)
    case _ => Silent
  }

  // Before the first publisher.
  predicate Initial(w: World) {
    && w.pubs == map[] && w.files == map[] && w.memory == map[]
    && (forall h :: h in w.fds ==> w.fds[h].Foreign?)
    && (forall t :: t in w.dirs ==> w.dirs[t] < w.nextDir)
  }

  // A run, and where it ends.
  predicate Runs(w: World, steps: seq<Step>)
    decreases |steps|
  {
    steps == [] || (Enabled(w, steps[0]) && Runs(Next(w, steps[0]), steps[1..]))
  }

  function After(w: World, steps: seq<Step>): World
    requires Runs(w, steps)
    decreases |steps|
  {
    if steps == [] then w else After(Next(w, steps[0]), steps[1..])
  }

  // ---------- What every step keeps ----------

  predicate Open(fds: map<Handle, Object>, pid: Int31, fd: Int31, o: Object) {
    Handle(pid, fd) in fds && fds[Handle(pid, fd)] == o
  }

  // A publisher's parts are open as long as it needs them,
  ghost predicate PartsHeld(p: Publisher, g: Generation, fds: map<Handle, Object>) {
    && (forall k | 0 <= k < |p.queueFds| :: p.KeepsQueue(k) ==> Open(fds, p.pid, p.queueFds[k], QueueBuffer(g, k)))
    && (p.KeepsEvent() ==> Open(fds, p.pid, p.eventFd, EventCounter(g)))
    && (p.KeepsInfo() ==> Open(fds, p.pid, p.infoFd, InfoBuffer(g)))
    && |p.queueFds| <= p.queueSize
    && (p.HasEvent() || p.phase.Dead? ==> |p.queueFds| == p.queueSize)
  }

  // its record is written before it is advertised,
  ghost predicate RecordHeld(p: Publisher, packed: seq<byte>, buffer: seq<byte>) {
    && (p.HasInfo() || p.Filled() ==> |packed| <= |buffer| && |packed| < 0x8000_0000)
    && (p.phase.Writing? ==>
          p.phase.written <= |packed| <= |buffer| && buffer[..p.phase.written] == packed[..p.phase.written])
    && (p.Filled() ==> packed <= buffer)
  }

  // its file is there while it is advertised,
  ghost predicate FileHeld(p: Publisher, g: Generation, files: map<Path, File>) {
    p.HasFile() ==> p.FilePath() in files && files[p.FilePath()] == File(g, p.phase.Live?)
  }

  // and there is no other file.
  ghost predicate FilesOwned(pubs: map<Generation, Publisher>, files: map<Path, File>, dirs: map<string, nat>) {
    forall path :: path in files ==>
      var g := files[path].gen;
      g in pubs && pubs[g].HasFile() && path == pubs[g].FilePath() && path.topic in dirs
  }

  ghost predicate DirsNumbered(dirs: map<string, nat>, nextDir: nat) {
    forall t :: t in dirs ==> dirs[t] < nextDir
  }

  ghost predicate PublisherInv(w: World, g: Generation)
    requires g in w.pubs
  {
    && PartsHeld(w.pubs[g], g, w.fds)
    && RecordHeld(w.pubs[g], Packed(w.pubs[g]), BufferOf(w.memory, g))
    && FileHeld(w.pubs[g], g, w.files)
  }

  ghost predicate Inv(w: World) {
    && (forall g :: g in w.pubs ==> PublisherInv(w, g))
    && FilesOwned(w.pubs, w.files, w.dirs)
    && DirsNumbered(w.dirs, w.nextDir)
  }

  lemma OthersKeepParts(p: Publisher, gen: Generation, q: Publisher, g: Generation, fds: map<Handle, Object>, a: Action)
    requires CanAct(p, fds, a) && PartsHeld(p, gen, fds) && PartsHeld(q, g, fds) && g != gen
    ensures PartsHeld(q, g, FdsAfter(p, gen, fds, a))
  {
    hide Packed;
  }

  lemma OwnPartsAfter(p: Publisher, gen: Generation, fds: map<Handle, Object>, dirs: map<string, nat>, a: Action)
    requires CanAct(p, fds, a) && PartsHeld(p, gen, fds)
    ensures PartsHeld(Advanced(p, fds, dirs, a), gen, FdsAfter(p, gen, fds, a))
  {
    hide Packed;
  }

  // The record is settled before it is written.
  lemma SamePacked(p: Publisher, fds: map<Handle, Object>, dirs: map<string, nat>, a: Action)
    requires CanAct(p, fds, a) && (p.HasInfo() || p.Filled() || a.AllocateInfo?)
    ensures Packed(Advanced(p, fds, dirs, a)) == Packed(p)
  {
    hide Packed, InfoOf;
    SameRecord(p, Advanced(p, fds, dirs, a));
  }

  lemma RecordAfter(p: Publisher, fds: map<Handle, Object>, dirs: map<string, nat>, buffer: seq<byte>, a: Action)
    requires CanAct(p, fds, a) && RecordHeld(p, Packed(p), buffer)
    ensures
      var q := Advanced(p, fds, dirs, a);
      RecordHeld(q, Packed(q), BufferAfter(p.phase, Packed(p), buffer, a))
  {
    hide Packed, Overwritten, Zeros;
    if p.HasInfo() || p.Filled() || a.AllocateInfo? {
      SamePacked(p, fds, dirs, a);
    }
    var packed := Packed(p);
    assert packed[..|packed|] == packed;
    if a.WriteInfo? {
      WriteExtends(buffer, packed, p.phase.written, a.count);
    }
  }

  lemma WriteExtends(memory: seq<byte>, packed: seq<byte>, at: nat, count: nat)
    requires at + count <= |packed| <= |memory| && memory[..at] == packed[..at]
    ensures Overwritten(memory, at, packed[at..at + count])[..at + count] == packed[..at + count]
  {
    var r := Overwritten(memory, at, packed[at..at + count]);
    assert r[..at + count] == memory[..at] + packed[at..at + count];
  }

  // ---------- Files ----------

  // Two publishers whose info buffers are open have different names, so the file a
  // publisher is about to create does not exist, and the file it is about to remove is
  // its own.
  lemma FileIsOwn(w: World, g: Generation)
    requires Inv(w) && g in w.pubs && w.pubs[g].HasInfo() && w.pubs[g].FilePath() in w.files
    ensures w.files[w.pubs[g].FilePath()].gen == g && w.pubs[g].HasFile()
  {
    hide RecordHeld, Packed, FileHeld;
    var g' := w.files[w.pubs[g].FilePath()].gen;
    assert PublisherInv(w, g) && PublisherInv(w, g');
  }

  lemma NoFileYet(w: World, gen: Generation)
    requires Inv(w) && gen in w.pubs && w.pubs[gen].phase.Writing?
    ensures w.pubs[gen].FilePath() !in w.files
  {
    hide Inv;
    if w.pubs[gen].FilePath() in w.files {
      FileIsOwn(w, gen);
    }
  }

  lemma OwnFileAfter(w: World, gen: Generation, a: Action)
    requires Inv(w) && Enabled(w, Act(gen, a))
    ensures
      var p := w.pubs[gen];
      FileHeld(Advanced(p, w.fds, w.dirs, a), gen, FilesAfter(p, gen, w.files, w.dirs, a))
  {
    hide PartsHeld, RecordHeld, Packed, FilesOwned;
    assert PublisherInv(w, gen);
    var p := w.pubs[gen];
    if p.HasInfo() && p.FilePath() in w.files {
      FileIsOwn(w, gen);
    }
  }

  lemma OthersKeepFiles(w: World, gen: Generation, a: Action, g: Generation)
    requires Inv(w) && Enabled(w, Act(gen, a)) && g in w.pubs && g != gen
    ensures FileHeld(w.pubs[g], g, FilesAfter(w.pubs[gen], gen, w.files, w.dirs, a))
  {
    hide PartsHeld, RecordHeld, Packed, FilesOwned;
    assert PublisherInv(w, g);
    var p := w.pubs[gen];
    if p.HasInfo() && p.FilePath() in w.files {
      FileIsOwn(w, gen);
    }
  }

  lemma FilesStayOwned(w: World, gen: Generation, a: Action, dirs: map<string, nat>)
    requires Inv(w) && Enabled(w, Act(gen, a)) && forall t :: t in w.dirs ==> t in dirs
    ensures
      var p := w.pubs[gen];
      FilesOwned(w.pubs[gen := Advanced(p, w.fds, w.dirs, a)], FilesAfter(p, gen, w.files, w.dirs, a), dirs)
  {
    hide PublisherInv, Packed;
    var p := w.pubs[gen];
    if p.HasInfo() && p.FilePath() in w.files {
      FileIsOwn(w, gen);
    }
  }

  lemma ActInv(w: World, gen: Generation, a: Action)
    requires Inv(w) && Enabled(w, Act(gen, a))
    ensures Inv(Next(w, Act(gen, a)))
  {
    hide PartsHeld, RecordHeld, FileHeld, FilesOwned, Packed, CanAct, Advanced, FdsAfter, BufferAfter, FilesAfter;
    var p, w' := w.pubs[gen], Next(w, Act(gen, a));
    assert PublisherInv(w, gen);
    FilesStayOwned(w, gen, a, w'.dirs);
    OwnPartsAfter(p, gen, w.fds, w.dirs, a);
    RecordAfter(p, w.fds, w.dirs, BufferOf(w.memory, gen), a);
    OwnFileAfter(w, gen, a);
    forall g | g in w'.pubs ensures PublisherInv(w', g) {
      if g != gen {
        assert PublisherInv(w, g);
        OthersKeepParts(p, gen, w.pubs[g], g, w.fds, a);
        OthersKeepFiles(w, gen, a, g);
      }
    }
  }

  lemma SpawnInv(w: World, s: Step)
    requires Inv(w) && Enabled(w, s) && s.Spawn?
    ensures Inv(Next(w, s))
  {
    hide PartsHeld, RecordHeld, FileHeld, Packed;
    var w' := Next(w, s);
    NewInv(w'.pubs[s.gen], s.gen, w.fds, BufferOf(w.memory, s.gen), w.files);
    forall g | g in w'.pubs ensures PublisherInv(w', g) {
      if g in w.pubs {
        assert PublisherInv(w, g);
      }
    }
  }

  lemma NewInv(p: Publisher, g: Generation, fds: map<Handle, Object>, buffer: seq<byte>, files: map<Path, File>)
    requires p.phase.Starting? && p.queueFds == [] && !p.advertised
    ensures PartsHeld(p, g, fds) && RecordHeld(p, Packed(p), buffer) && FileHeld(p, g, files)
  {
    hide Packed;
  }

  lemma OthersKeepOpen(w: World, s: Step, g: Generation)
    requires Inv(w) && Enabled(w, s) && (s.ForeignOpen? || s.ForeignClose?) && g in w.pubs
    ensures PartsHeld(w.pubs[g], g, Next(w, s).fds)
  {
    hide RecordHeld, FileHeld, Packed;
    assert PublisherInv(w, g);
  }

  // Every step keeps the invariant.
  lemma StepInv(w: World, s: Step)
    requires Inv(w) && Enabled(w, s)
    ensures Inv(Next(w, s))
  {
    hide PartsHeld, RecordHeld, FileHeld, Packed, CanAct, Advanced, FdsAfter, BufferAfter, FilesAfter;
    match s {
      case Act(gen, a) => ActInv(w, gen, a);
      case Spawn(_, _, _, _, _) => SpawnInv(w, s);
      case _ =>
        forall g | g in w.pubs ensures PublisherInv(Next(w, s), g) {
          assert PublisherInv(w, g);
          if !s.RemoveDirectory? {
            OthersKeepOpen(w, s, g);
          }
        }
    }
  }

  lemma InitialInv(w: World)
    requires Initial(w)
    ensures Inv(w)
  {
  }

  lemma {:induction false} RunInv(w: World, steps: seq<Step>)
    requires Inv(w) && Runs(w, steps)
    ensures Inv(After(w, steps))
    decreases |steps|
  {
    hide Inv, Enabled, Next;
    if steps != [] {
      StepInv(w, steps[0]);
      RunInv(Next(w, steps[0]), steps[1..]);
    }
  }

  // What an action leaves behind, part by part.
  lemma ActEffect(w: World, gen: Generation, a: Action)
    requires Enabled(w, Act(gen, a))
    ensures
      var p, w' := w.pubs[gen], Next(w, Act(gen, a));
      && w'.pubs == w.pubs[gen := Advanced(p, w.fds, w.dirs, a)]
      && w'.fds == FdsAfter(p, gen, w.fds, a)
      && w'.memory == w.memory[gen := BufferAfter(p.phase, Packed(p), BufferOf(w.memory, gen), a)]
      && w'.files == FilesAfter(p, gen, w.files, w.dirs, a)
      && (!a.InitTopicPath? ==> w'.dirs == w.dirs)
      && (a.InitTopicPath? ==> w'.dirs.Keys == w.dirs.Keys + {p.topic})
  {
    hide Advanced, FdsAfter, FilesAfter, BufferAfter, CanAct, Packed;
  }

  // The record does not depend on where it is kept and how far its publisher is.
  lemma SameRecord(p: Publisher, q: Publisher)
    requires q == p.(topic := q.topic, infoFd := q.infoFd, advertised := q.advertised, phase := q.phase)
    ensures Packed(q) == Packed(p) && InfoOf(q) == InfoOf(p)
  {
    hide Record.Pack;
    assert InfoOf(q) == InfoOf(p);
  }
}
